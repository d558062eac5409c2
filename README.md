# mARket view-model core in Dafny

mARket is an Android marketplace app for furniture with 3D models. This
project models the part of the app that holds state and makes decisions,
leaving out the screens, the database engine, the network stack and the
AR viewer:

- **Browse screen** (`ListingsViewModel`). It filters the listing table by an
  optional category and condition, sorts it stably by price in either
  direction, toggles two overlays, loads the table, and seeds it with five
  sample rows.
- **Shared selection state** (`ListingSharedViewModel`). It holds the selected
  listing, category and condition, and a recently-seen list kept with
  move-to-front insertion. Matching in that list is whole-value equality.
- **Photo-reconstruction client** (`RecapViewModel`). It creates a photoscene,
  uploads the photos in fixed-size batches, starts processing, polls until
  the service says `"DONE"`, and then fetches the FBX result link.
- **Progress adapter** (`ProgressDeserializer`). It maps a JSON element to an
  optional progress string.
- **Enum converters** (`CategoryConverter`, `ConditionConverter`).
- **Create-listing flow** (`CreateViewModel`). It validates the form, inserts
  the row, uploads the image, uploads the model and updates the row. It also
  has the `copyStream` buffer loop.
- **Album reducer** (`AlbumViewModel`). It reduces camera and gallery events
  into the picked pictures, and `toFileList` turns those into files.
- **Sign-up and sign-in forms** (`SignUpViewModel`, `SignInViewModel`). Sign-up
  validates in a fixed order. Sign-in rewrites one error message. Both
  navigate only after the service accepts.
- **Price field** (`PriceTextField`). It keeps only the digits the user typed.

How the model is built:

- Each Kotlin view model is a Dafny `class`. Its methods update the fields the
  Kotlin code updates. Each method is specified against a pure function, and
  the lemmas state what that function guarantees.
- A `LiveData` with no initial value is an `Option`, where `None` means unset.
- Prices are integers in hundredths of the currency unit.
- Each remote service is an object holding a script of replies and a log of
  the requests sent. A call appends to the log and consumes one reply. A
  reply is an HTTP status with an optional body and error body, or an
  exception.
- A script that has run out answers by throwing. This is what bounds the
  `while (true)` poll loop in the model.
- The Room table is a class over a sequence of rows with unique ids.

Behaviour of the code that the model keeps as written:

- `pollProgress` returns null only for a non-2xx status. An exception from
  the progress call itself is not caught, so it ends `getProgress`.
- The recently-seen list de-duplicates by whole-value equality, not by id. An
  edited copy of a listing therefore appears at the front while the old copy
  stays in place.
- A partial upload failure in the create flow leaves the inserted row with
  both URLs null. The image URL is never written on its own, because the
  only update comes after both uploads.

## Model

| member | source | states |
|---|---|---|
| `ListingsViewModel.Filtered` | app/src/main/java/com/example/market/presentation/viewModel/ListingsViewModel.kt:35-41 | Every published listing matches the category and the condition, each null meaning "any", ANDed together. Every matching listing is kept as often as it occurs in the snapshot. Every non-matching one is dropped. |
| `ListingsViewModel.FilteredIsSubsequence` | app/src/main/java/com/example/market/presentation/viewModel/ListingsViewModel.kt:38-41 | The filtered list is an order-preserving sub-list of the snapshot. |
| `ListingsViewModel.ShortcutAgreesWithPredicate` | app/src/main/java/com/example/market/presentation/viewModel/ListingsViewModel.kt:35-41 | With both filters null, the shortcut gives the same list as the general predicate with two wildcards: the whole snapshot, in order. |
| `ListingsViewModel.SortedByPrice` | app/src/main/java/com/example/market/presentation/viewModel/ListingsViewModel.kt:50-54 | The sorted list is a permutation of the snapshot. Prices are non-decreasing when ascending and non-increasing otherwise. |
| `ListingsViewModel.InsertKeepsOrder` | app/src/main/java/com/example/market/presentation/viewModel/ListingsViewModel.kt:51-53 | Inserting a listing into a price-ordered list keeps it price-ordered. |
| `ListingsViewModel.SortIsStable` | app/src/main/java/com/example/market/presentation/viewModel/ListingsViewModel.kt:50-54 | For every price, the listings at that price appear in the sorted list in snapshot order, as `sortedBy`/`sortedByDescending` keep ties. |
| `ListingsViewModel.UnsetCountsAsHidden` | app/src/main/java/com/example/market/presentation/viewModel/ListingsViewModel.kt:58-64 | An unset overlay toggles exactly as a hidden one does: both open, and only an open one closes. |
| `ListingsViewModel.ToggleTwiceRestores` | app/src/main/java/com/example/market/presentation/viewModel/ListingsViewModel.kt:58-64 | After two toggles the overlay is shown exactly when it was shown before, unset included; a set value is restored. |
| `ListingsViewModel.SampleListings` | app/src/main/java/com/example/market/presentation/viewModel/ListingsViewModel.kt:66-112 | There are five sample listings, with pairwise distinct ids. |
| `ListingsViewModel.AddAll` | app/src/main/java/com/example/market/presentation/viewModel/ListingsViewModel.kt:117-119 | Inserting the rows one by one keeps the table's ids unique. |
| `ListingsViewModel.AddAllStoresEach` | app/src/main/java/com/example/market/presentation/viewModel/ListingsViewModel.kt:117-119 | After inserting rows with distinct ids one by one, every one of them is in the table. |
| `ListingsViewModel.ListingsViewModel.constructor` | app/src/main/java/com/example/market/presentation/viewModel/ListingsViewModel.kt:19-28 | Both lists start unset and both overlays start hidden. |
| `ListingsViewModel.ListingsViewModel.FilterListings` | app/src/main/java/com/example/market/presentation/viewModel/ListingsViewModel.kt:30-45 | `filteredListings` becomes the filtered snapshot of the whole table. Nothing else changes. |
| `ListingsViewModel.ListingsViewModel.SortListings` | app/src/main/java/com/example/market/presentation/viewModel/ListingsViewModel.kt:47-56 | `filteredListings` becomes the price-sorted whole table, discarding any earlier filter. Nothing else changes. |
| `ListingsViewModel.ListingsViewModel.ToggleSortOverlay` | app/src/main/java/com/example/market/presentation/viewModel/ListingsViewModel.kt:58-60 | The sort overlay becomes `old != true`. Nothing else changes. |
| `ListingsViewModel.ListingsViewModel.ToggleFilterOverlay` | app/src/main/java/com/example/market/presentation/viewModel/ListingsViewModel.kt:62-64 | The filter overlay becomes `old != true`. Nothing else changes. |
| `ListingsViewModel.ListingsViewModel.LoadListings` | app/src/main/java/com/example/market/presentation/viewModel/ListingsViewModel.kt:125-130 | `listings` and `filteredListings` both become the table snapshot. |
| `ListingsViewModel.ListingsViewModel.AddListing` | app/src/main/java/com/example/market/presentation/viewModel/ListingsViewModel.kt:132-137 | The listing is upserted by id, then both lists are reloaded from the table. |
| `ListingsViewModel.ListingsViewModel.PopulateDatabase` | app/src/main/java/com/example/market/presentation/viewModel/ListingsViewModel.kt:114-123 | The five samples are upserted in order and every one is in the table afterwards. Then both lists are reloaded. |
| `ListingStore.Upsert` | app/src/main/java/com/example/market/data/ListingDao.kt:20-21 | An insert with the REPLACE conflict strategy stores the listing. Rows with other ids survive, nothing else is added, and ids stay unique. |
| `ListingStore.FindById` | app/src/main/java/com/example/market/data/ListingDao.kt:17-18 | A row is found exactly when some row has the id. The row found has that id. |
| `ListingStore.Store.GetAllListings` | app/src/main/java/com/example/market/data/ListingDao.kt:14-15 | Returns the whole table. |
| `ListingStore.Store.GetListingById` | app/src/main/java/com/example/market/data/ListingDao.kt:17-18 | Null exactly when no row has the id. Otherwise a row of the table with that id, and, ids being unique, the only such row. |
| `ListingStore.Store.AddListing` | app/src/main/java/com/example/market/data/ListingDao.kt:20-21 | The table becomes the upsert of the listing, and ids stay unique. |
| `ListingStore.Store.AddListingReturnId` | app/src/main/java/com/example/market/data/ListingRepository.kt:9 | The returned id is positive and unused. The row is appended under that id and can be found by it. |
| `ListingStore.Store.UpdateListing` | app/src/main/java/com/example/market/data/ListingDao.kt:23-24 | The row with the listing's id is replaced. All other rows are unchanged. |
| `ListingStore.FindAfterAppend` | app/src/main/java/com/example/market/data/ListingRepository.kt:9 | A row appended under an unused id is the one found under that id. |
| `ListingSharedViewModel.IndexOf` | app/src/main/java/com/example/market/presentation/viewModel/ListingSharedViewModel.kt:35 | -1 exactly when the listing is absent. Otherwise it is the index of the first equal element. |
| `ListingSharedViewModel.RemoveAt` | app/src/main/java/com/example/market/presentation/viewModel/ListingSharedViewModel.kt:39 | The list is one shorter: the elements before the index stay in place, the ones after it move down by one, and the element at the index is the one gone. |
| `ListingSharedViewModel.RemoveFirstCount` | app/src/main/java/com/example/market/presentation/viewModel/ListingSharedViewModel.kt:52 | Removing an absent listing changes nothing. Otherwise the first equal copy, the one at `IndexOf`, is the one removed, everything else keeps its place and order, and exactly one copy is gone. |
| `ListingSharedViewModel.RemoveFirstKeepsOthers` | app/src/main/java/com/example/market/presentation/viewModel/ListingSharedViewModel.kt:52 | The other listings keep their relative order. |
| `ListingSharedViewModel.RemoveFirstKeepsNoDuplicates` | app/src/main/java/com/example/market/presentation/viewModel/ListingSharedViewModel.kt:50-54 | Removing from a duplicate-free list keeps it duplicate-free and leaves no copy of the removed listing. |
| `ListingSharedViewModel.OthersConcat` | app/src/main/java/com/example/market/presentation/viewModel/ListingSharedViewModel.kt:39-42 | Dropping one listing's copies from a concatenation drops them from each part. |
| `ListingSharedViewModel.MoveToFrontSpec` | app/src/main/java/com/example/market/presentation/viewModel/ListingSharedViewModel.kt:33-44 | After an add the listing is at index 0. The length is unchanged if the listing was present and one more otherwise. Exactly one copy of it is added and at most one removed. The other listings keep their order. |
| `ListingSharedViewModel.MoveToFrontKeepsNoDuplicates` | app/src/main/java/com/example/market/presentation/viewModel/ListingSharedViewModel.kt:33-44 | A duplicate-free list stays duplicate-free after an add. |
| `ListingSharedViewModel.ListingSharedViewModel.constructor` | app/src/main/java/com/example/market/presentation/viewModel/ListingSharedViewModel.kt:17-31 | All selections are null and the recently-seen list is unset, so it holds no duplicates. |
| `ListingSharedViewModel.ListingSharedViewModel.SelectListing` | app/src/main/java/com/example/market/presentation/viewModel/ListingSharedViewModel.kt:20-22 | Sets only the selected listing. |
| `ListingSharedViewModel.ListingSharedViewModel.SelectCategory` | app/src/main/java/com/example/market/presentation/viewModel/ListingSharedViewModel.kt:57-59 | Sets only the selected category, null allowed. |
| `ListingSharedViewModel.ListingSharedViewModel.SelectCondition` | app/src/main/java/com/example/market/presentation/viewModel/ListingSharedViewModel.kt:61-63 | Sets only the selected condition, null allowed. |
| `ListingSharedViewModel.ListingSharedViewModel.AddRecentlySeenListing` | app/src/main/java/com/example/market/presentation/viewModel/ListingSharedViewModel.kt:33-44 | The list, with unset read as empty, becomes the move-to-front of the listing and stays duplicate-free. The selections are unchanged. |
| `ListingSharedViewModel.ListingSharedViewModel.ClearRecentlySeenListings` | app/src/main/java/com/example/market/presentation/viewModel/ListingSharedViewModel.kt:46-48 | The list becomes empty, which is duplicate-free, and the selections are unchanged. |
| `ListingSharedViewModel.ListingSharedViewModel.RemoveRecentlySeenListing` | app/src/main/java/com/example/market/presentation/viewModel/ListingSharedViewModel.kt:50-54 | The first equal listing is removed, with unset read as empty, and the list stays duplicate-free. The selections are unchanged. |
| `ProgressDeserializer.Deserialize` | app/src/main/java/com/example/market/data/ProgressDeserializer.kt:12-28 | The result is null exactly for a missing element, JSON null or an array. A primitive yields its string form. Any object yields "0.0". The function is total. |
| `ProgressDeserializer.ObjectIsZeroProgress` | app/src/main/java/com/example/market/data/ProgressDeserializer.kt:24-26 | Any object, empty or not, yields exactly "0.0". |
| `ProgressDeserializer.ScalarProgressKeepsItsText` | app/src/main/java/com/example/market/data/ProgressDeserializer.kt:20-22 | A numeric or string primitive yields its own text. |
| `CategoryConverter.ToCategory` | app/src/main/java/com/example/market/data/CategoryConverter.kt:14-16 | A name converts exactly when it equals, case-sensitively, some category's name. |
| `CategoryConverter.CategoryRoundTrip` | app/src/main/java/com/example/market/data/CategoryConverter.kt:9-16 | `toCategory(fromCategory(c)) == c`. |
| `CategoryConverter.CategoryNamesDistinct` | app/src/main/java/com/example/market/data/CategoryConverter.kt:9-11 | Distinct categories have distinct names. |
| `CategoryConverter.CategoryNameRoundTrip` | app/src/main/java/com/example/market/data/CategoryConverter.kt:9-16 | `fromCategory(toCategory(s)) == s` whenever the conversion succeeds. |
| `CategoryConverter.ToCondition` | app/src/main/java/com/example/market/data/CategoryConverter.kt:26-28 | A name converts exactly when it equals some condition's name. |
| `CategoryConverter.ConditionRoundTrip` | app/src/main/java/com/example/market/data/CategoryConverter.kt:21-28 | `toCondition(fromCondition(c)) == c`. |
| `CategoryConverter.ConditionNamesDistinct` | app/src/main/java/com/example/market/data/CategoryConverter.kt:21-23 | Distinct conditions have distinct names. |
| `CategoryConverter.ConditionNameRoundTrip` | app/src/main/java/com/example/market/data/CategoryConverter.kt:21-28 | `fromCondition(toCondition(s)) == s` whenever the conversion succeeds. |
| `RecapViewModel.Chunked` | app/src/main/java/com/example/market/presentation/viewModel/RecapViewModel.kt:62 | Every batch has between 1 and B files, and every batch but the last has exactly B. |
| `RecapViewModel.ChunkedFlattens` | app/src/main/java/com/example/market/presentation/viewModel/RecapViewModel.kt:62 | The batches put back together are the original file list. |
| `RecapViewModel.ChunkedCount` | app/src/main/java/com/example/market/presentation/viewModel/RecapViewModel.kt:62 | The batch count n is ceil(N/B): none for no files, otherwise (n-1)*B < N <= n*B. |
| `RecapViewModel.TwentyThreePhotosInThreeBatches` | app/src/main/java/com/example/market/presentation/viewModel/RecapViewModel.kt:57-62 | 23 photos in batches of 10 go out as 10, 10 and 3. |
| `RecapViewModel.PartsNamedByPosition` | app/src/main/java/com/example/market/presentation/viewModel/RecapViewModel.kt:65-69 | Within a batch the i-th part carries the i-th file under the name "file[i]", counting from 0 in every batch. No two parts share a name. |
| `RecapViewModel.UploadRunSpec` | app/src/main/java/com/example/market/presentation/viewModel/RecapViewModel.kt:63-77 | Batch k goes out as the k-th request, tagged with the photoscene id. The upload completes exactly when every batch is accepted. Otherwise it stops right after the first refused batch, with that batch's error, and earlier batches stay sent. |
| `RecapViewModel.PollResult` | app/src/main/java/com/example/market/presentation/viewModel/RecapViewModel.kt:87-90 | A poll fails only when the call throws. A body is returned only for a 2xx status. |
| `RecapViewModel.PollLoopSpec` | app/src/main/java/com/example/market/presentation/viewModel/RecapViewModel.kt:98-119 | Every poll publishes its progress value, null included. Polling goes on exactly until a poll reports "DONE". Then one result fetch with format "fbx" is made and the loop ends whether it succeeds or not. The link is set only from a successful fetch. |
| `RecapViewModel.PollLoopPublishes` | app/src/main/java/com/example/market/presentation/viewModel/RecapViewModel.kt:98-104 | Each poll's progress value is published in poll order, null included, and no poll before the last published one was told "DONE". |
| `RecapViewModel.PollLoopEnds` | app/src/main/java/com/example/market/presentation/viewModel/RecapViewModel.kt:106-119 | The loop completes only after a "DONE" poll and a result fetch that did not throw, having sent n progress polls then one "fbx" result request. It fails either on a poll that threw, with no "DONE" reported by the poll before it, or on a thrown result fetch. The link is set exactly when the fetch succeeded, to that reply's scene link. |
| `RecapViewModel.ProcessingComesFirst` | app/src/main/java/com/example/market/presentation/viewModel/RecapViewModel.kt:92-96 | Processing is triggered once, before any poll. A refused trigger ends the run with "Process failed: ..." before anything is polled or published. |
| `RecapViewModel.RecapViewModel.constructor` | app/src/main/java/com/example/market/presentation/viewModel/RecapViewModel.kt:18-24 | The photoscene id starts empty, and progress and download URL both read as null. |
| `RecapViewModel.RecapViewModel.SetProgress` | app/src/main/java/com/example/market/presentation/viewModel/RecapViewModel.kt:26-28 | Publishes one progress value. |
| `RecapViewModel.RecapViewModel.SetDownloadUrl` | app/src/main/java/com/example/market/presentation/viewModel/RecapViewModel.kt:30-32 | Publishes the download URL. |
| `RecapViewModel.RecapViewModel.CreatePhotoscene` | app/src/main/java/com/example/market/presentation/viewModel/RecapViewModel.kt:34-55 | On a 2xx reply it stores the returned id, or "" when absent, and reports that same value. Otherwise it reports null and keeps the old id. |
| `RecapViewModel.RecapViewModel.UploadPhotosInBatches` | app/src/main/java/com/example/market/presentation/viewModel/RecapViewModel.kt:57-78 | A batch size of 0 or less throws before any request. Otherwise it sends exactly the requests of the batch-upload run and ends as that run does. |
| `RecapViewModel.RecapViewModel.ProcessPhotoscene` | app/src/main/java/com/example/market/presentation/viewModel/RecapViewModel.kt:80-85 | One process request. A non-2xx reply throws "Process failed: " followed by the error body. |
| `RecapViewModel.RecapViewModel.PollProgress` | app/src/main/java/com/example/market/presentation/viewModel/RecapViewModel.kt:87-90 | One progress request, returning the body of a 2xx reply and null otherwise. |
| `RecapViewModel.RecapViewModel.GetProgress` | app/src/main/java/com/example/market/presentation/viewModel/RecapViewModel.kt:92-121 | Sends the requests of the process-then-poll run. Publishes each polled value in order and sets the link as that run does. |
| `RecapViewModel.RecapViewModel.PollUntilDone` | app/src/main/java/com/example/market/presentation/viewModel/RecapViewModel.kt:98-119 | Sends exactly the requests of the poll run, publishes its values in order with the last one left as the current progress, sets the link only as that run does, and ends as it does. |
| `RecapViewModel.RecapViewModel.PollTurn` | app/src/main/java/com/example/market/presentation/viewModel/RecapViewModel.kt:99-118 | One pass of the loop body: when the loop ends here the state is that of the whole remaining run; otherwise one poll was sent, its value published, and the rest of the run is what the remaining replies make of it. |
| `RecapViewModel.RecapViewModel.FetchResult` | app/src/main/java/com/example/market/presentation/viewModel/RecapViewModel.kt:108-117 | One "fbx" result request; a successful reply sets the link to its scene link, any other reply leaves the link unchanged, and a thrown call fails the run. |
| `CreateViewModel.UploadResult` | app/src/main/java/com/example/market/presentation/viewModel/CreateViewModel.kt:86-108 | A 2xx reply yields its URL, or "" when the body or the URL is missing. Any other status fails with the message prefix followed by the error body, "null" when absent. A thrown call fails with its own message. |
| `CreateViewModel.UploadStepOrder` | app/src/main/java/com/example/market/presentation/viewModel/CreateViewModel.kt:54-62 | The image upload goes first. The model upload happens only after the image upload succeeded. The URLs are returned only when both succeed, and a failure carries that upload's message. |
| `CreateViewModel.CreateViewModel.UploadListingImageFile` | app/src/main/java/com/example/market/presentation/viewModel/CreateViewModel.kt:79-93 | One image upload for the listing id, with the part named "image-file". |
| `CreateViewModel.CreateViewModel.UploadListingModelFile` | app/src/main/java/com/example/market/presentation/viewModel/CreateViewModel.kt:95-109 | One model upload for the listing id, with the part named "model-file". |
| `CreateViewModel.CreateViewModel.CreateListing` | app/src/main/java/com/example/market/presentation/viewModel/CreateViewModel.kt:24-77 | An empty name, a price of 0 or less, or a missing file stops the flow with no insert, no upload and no callback. Otherwise the row is inserted under a fresh id with both URLs null. If an upload fails, onError gets its message and the row keeps null URLs. If both succeed, the row gets the two URLs and then onSuccess is called. |
| `CreateViewModel.ReplaceLast` | app/src/main/java/com/example/market/presentation/viewModel/CreateViewModel.kt:65-70 | Updating the row just inserted under a fresh id replaces that row and no other. |
| `CreateViewModel.CopyStream` | app/src/main/java/com/example/market/presentation/viewModel/CreateViewModel.kt:129-136 | Everything left in the input is written to the output in order, in writes of 1 to 1024 bytes, until the end of the stream. Then the output is flushed. |
| `AlbumViewModel.Picked` | app/src/main/java/com/example/market/presentation/viewModel/AlbumViewModel.kt:56-78 | At most one picture per picked URI. Each picture's URI is readable and its image is decoded from that URI's bytes. |
| `AlbumViewModel.PickedFollowsPickOrder` | app/src/main/java/com/example/market/presentation/viewModel/AlbumViewModel.kt:57-77 | The picked pictures' URIs are exactly the readable picked URIs, in pick order. Unreadable ones are skipped. |
| `AlbumViewModel.PickingAppendsReadable` | app/src/main/java/com/example/market/presentation/viewModel/AlbumViewModel.kt:54-90 | A non-empty pick appends the readable pictures after the existing ones and clears the temp file. An empty pick changes nothing. |
| `AlbumViewModel.SavingAppendsCapture` | app/src/main/java/com/example/market/presentation/viewModel/AlbumViewModel.kt:91-108 | With a readable temp file set, saving appends exactly one picture under its URI and clears it. Without a temp file, or with an unreadable one, nothing changes. |
| `AlbumViewModel.EventsKeepPictures` | app/src/main/java/com/example/market/presentation/viewModel/AlbumViewModel.kt:33-113 | No event removes or reorders a picture. Only the permission grant sets a new temp file. Only picking and saving add pictures. |
| `AlbumViewModel.PicturesOnlyGrow` | app/src/main/java/com/example/market/presentation/viewModel/AlbumViewModel.kt:33-113 | Over any run of events, the earlier pictures remain a prefix. |
| `AlbumViewModel.FilesFollowSelection` | app/src/main/java/com/example/market/presentation/viewModel/AlbumViewModel.kt:115-130 | There is one file per readable picture, in selection order, holding that picture's bytes. |
| `AlbumViewModel.AlbumViewModel.constructor` | app/src/main/java/com/example/market/data/AlbumViewState.kt:9-19 | No temp file and no pictures. |
| `AlbumViewModel.AlbumViewModel.OnReceive` | app/src/main/java/com/example/market/presentation/viewModel/AlbumViewModel.kt:33-113 | The state becomes the reduction of the event. |
| `AlbumViewModel.AlbumViewModel.ToFileList` | app/src/main/java/com/example/market/presentation/viewModel/AlbumViewModel.kt:115-130 | Returns the bytes of each file written, one per readable picture. |
| `SignUpViewModel.SignUpCheckOrder` | app/src/main/java/com/example/market/presentation/viewModel/SignUpViewModel.kt:52-62 | The form passes exactly when the email and password formats are valid and the passwords are equal. A failure names the first failing check in that order. |
| `SignUpViewModel.SignUpViewModel.constructor` | app/src/main/java/com/example/market/presentation/viewModel/SignUpViewModel.kt:24-34 | The fields start empty and there is no error. |
| `SignUpViewModel.SignUpViewModel.UpdateEmail` | app/src/main/java/com/example/market/presentation/viewModel/SignUpViewModel.kt:37-39 | Changes only the email. |
| `SignUpViewModel.SignUpViewModel.UpdatePassword` | app/src/main/java/com/example/market/presentation/viewModel/SignUpViewModel.kt:41-43 | Changes only the password. |
| `SignUpViewModel.SignUpViewModel.UpdateConfirmPassword` | app/src/main/java/com/example/market/presentation/viewModel/SignUpViewModel.kt:45-47 | Changes only the confirmation. |
| `SignUpViewModel.SignUpViewModel.OnSignUpClick` | app/src/main/java/com/example/market/presentation/viewModel/SignUpViewModel.kt:49-70 | A failed check stores its message, calls no service and does not navigate. Otherwise it calls signUp once. On success it navigates to (HomeScreen, SignUpScreen); on a thrown failure it stores that failure's message and does not navigate. |
| `SignUpViewModel.SignUpViewModel.ClearErrorMessage` | app/src/main/java/com/example/market/presentation/viewModel/SignUpViewModel.kt:72-74 | The error becomes null and the fields are unchanged. |
| `SignInViewModel.SignInErrorRewrite` | app/src/main/java/com/example/market/presentation/viewModel/SignInViewModel.kt:45-50 | Only the empty-credentials message is rewritten. Every other message, null included, is shown verbatim. The raw message is never shown. |
| `SignInViewModel.SignInViewModel.constructor` | app/src/main/java/com/example/market/presentation/viewModel/SignInViewModel.kt:22-29 | The fields start empty and there is no error. |
| `SignInViewModel.SignInViewModel.UpdateEmail` | app/src/main/java/com/example/market/presentation/viewModel/SignInViewModel.kt:31-33 | Changes only the email. |
| `SignInViewModel.SignInViewModel.UpdatePassword` | app/src/main/java/com/example/market/presentation/viewModel/SignInViewModel.kt:35-37 | Changes only the password. |
| `SignInViewModel.SignInViewModel.OnSignInClick` | app/src/main/java/com/example/market/presentation/viewModel/SignInViewModel.kt:39-52 | Calls signIn once. On success it navigates to (HomeScreen, SignInScreen) and leaves the error alone. On failure it does not navigate and stores the rewritten message. |
| `SignInViewModel.SignInViewModel.ClearErrorMessage` | app/src/main/java/com/example/market/presentation/viewModel/SignInViewModel.kt:54-56 | The error becomes null and the fields are unchanged. |
| `SignInViewModel.SignInViewModel.OnSignUpClick` | app/src/main/java/com/example/market/presentation/viewModel/SignInViewModel.kt:70-72 | Navigates to SignUpScreen and changes nothing. |
| `PriceTextField.DigitsOnly` | app/src/main/java/com/example/market/ui/theme/Theme.kt:166-170 | The callback's value holds only digits and keeps every digit of the input. |
| `PriceTextField.DigitsOnlyIsSubsequence` | app/src/main/java/com/example/market/ui/theme/Theme.kt:168 | The filtered value is an order-preserving sub-sequence of the input. |
| `PriceTextField.DigitsOnlyChangesIffNonDigit` | app/src/main/java/com/example/market/ui/theme/Theme.kt:168 | The filter changes its input exactly when the input holds a non-digit. |
| `PriceTextField.DigitsPassThrough` | app/src/main/java/com/example/market/ui/theme/Theme.kt:168 | An all-digit input passes through unchanged. |
| `PriceTextField.DigitsOnlyIdempotent` | app/src/main/java/com/example/market/ui/theme/Theme.kt:168 | Filtering twice gives what filtering once gives. |

## Left out

- Compose screens, navigation, theming and the AR and model viewers. They are user interface and rendering, with nothing to state.
- Coroutines, dispatchers, LiveData/StateFlow observation and the five-second delay between polls.
  - Each launched block is one sequential method.
  - Two launched blocks racing on the same view model are not modelled.
- RecapViewModel.RecapViewModel.constructor: progress starts as null (`MutableLiveData<String?>(null)`) while the download URL starts unset; the model's `Option` reads both as `None` and does not tell an unset download URL from one set to null by `setDownloadUrl(null)`.
- The unbounded `while (true)` poll loop.
  - It is driven by a finite reply script, and an exhausted script answers by throwing.
  - So a service that never reports "DONE" is seen only as a run that ends with that exception.
- Retrofit, OkHttp and Gson are left out, and so are the service interfaces beyond the request each call sends.
  - Each reply is a scripted value.
  - The photoscene batch-upload reply body is only logged and is not modelled; the listing uploads' reply body is modelled by `CreateViewModel.UploadResult`.
- Room is left out: the table is a sequence of rows.
  - Write failures of the database are not modelled.
  - Row order is insertion order: a new id is appended at the end and a replaced row keeps its place. SQL promises no order for `SELECT * FROM listings`, and a rowid table usually returns id order, which the filter and the ties of the stable sort would then see.
  - `getListingById` is a lookup of the row with the id; its SQL text is not modelled.
  - `deleteListing` is not modelled: no view model calls it.
  - `addListingReturnId` is declared but never implemented, so it is modelled as appending under an id one above the largest in use.
  - The conversion of that id from Long to Int is not modelled.
- ListingsViewModel.SampleListings: the drawable resource ids of the sample rows are not modelled (image URL unset), nor is the `onClick` navigation helper.
- The listing price is a Kotlin `Double`; it is an integer count of hundredths. NaN and rounding are not modelled.
- PriceTextField.DigitsOnly: Kotlin's `isDigit` accepts every Unicode decimal digit; the model accepts the ASCII digits '0' to '9' only.
- SignUpViewModel.SignUpCheckOrder: `isValidEmail` and `isValidPassword` are not part of this model; they are predicates passed in.
- Firebase Auth is not part of this model.
  - Each call's ending is a scripted reply.
  - The Google credential sign-in and sign-up paths are not modelled.
  - Neither is the service's exception-to-message mapping.
- Android I/O is left out: content resolvers, bitmap decoding, temp files, FileProvider and DownloadManager.
  - The resolver is a map from readable URIs to their bytes.
  - A decoded picture is a function of its bytes.
  - The temp file for the camera arrives with the permission-granted event.
  - Decoding failures are not modelled.
  - A URI absent from the map stands for a null stream, which the source skips.
- AlbumViewModel.SavingAppendsCapture: when the temp file cannot be read, the source's `ImageDecoder.decodeBitmap` throws; the model leaves the state unchanged instead and does not show that failure.
- AlbumViewModel.Picked: when `openInputStream` throws for a URI, the source aborts the whole pick event (and `toFileList` likewise), but the model has no throwing URIs and would skip such a URI like a null stream; the exception path is not modelled.
- AlbumViewModel.AlbumViewModel.ToFileList: returns the bytes written to each temp file, not the File objects, whose names are random.
- `startDownload`, `uriToFile`, `copyAssetToTempFile`, the model-conversion screen's view model and the splash and account view models are left out. They are Android platform calls or authentication glue.
  - The conversion screen's `copyStream` is the same loop as `CreateViewModel.CopyStream`.
- CreateViewModel.CopyStream: how many bytes one `read` delivers is the stream's choice (at least one while any remain); I/O exceptions are not modelled.
- Logging, toasts and `printStackTrace` are left out.
