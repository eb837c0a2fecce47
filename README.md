# arcade1 request layer and web-app rules, in Dafny

arcade1 is a builder for interactive product demos. Its backend is an Express server. It
authenticates requests with a bearer token, keeps users and demos in a database, and issues
storage keys for uploaded images. The web app runs a few pieces of client-side logic around
it: a dashboard, a demo editor, an upload queue, a landing-page carousel, a file-upload route
and a signup form. This project models each of those pieces and proves what the code promises
about them.

- **Backend** (`BackendModel`, `BackendAuth`, `DemoSchema`, `BackendServer`, `BackendUpload`).
  The `Server` class holds the `User` and `Demo` tables as two maps keyed by id, with unique
  emails and every demo's owner present. Each route handler is a method with a per-case
  contract:
  - the status and body it answers;
  - the new store on every path, including "store unchanged" on every error path.

  `Serve` puts the `authenticateToken` guard in front of the protected routes. The guard, the
  `demoSchema` validator and the storage-key builders are pure functions with lemmas.
- **Dashboard** (`Dashboard`): the search/type filter as a recursive filter with its
  characterisation. The `DashboardPage` class has the fetch/merge/fallback logic and logout.
- **Demo editor** (`CreateDemo`, `StepsJson`): the step list and its numbering invariant, and
  the image replacement after an upload. It also covers the share payload:
  - its `content` is `JSON.stringify` of the steps without images, and a proved reader
    recovers the step numbers and titles from it;
  - the payload passes the backend's schema.
- **Upload queue** (`FileUploader`): the type and size check, lock-step `files`/`previewUrls`
  lists with remove-at-index and remove-all, and the upload guards.
- **Carousel** (`Landing`): next/previous index arithmetic modulo 4 and the play switch.
- **File-upload route** (`UploadR2`): the no-file check, the extension and object-name
  derivation, the default content type and the public URL.
- **Signup form** (`SignupPage`): the order of the checks, the request body and the handling
  of the reply.

`Text` and `JsonText` state the JavaScript string operations the code relies on, over
`seq<char>`:
- `startsWith`, `includes`, ASCII `toLowerCase`, `trim`;
- `split` and `pop`, `substring`;
- decimal rendering of a number, and `JSON.stringify` of a string.

The clock (`Date.now()`), randomness (`Math.random()`), the database's fresh ids, token signing
and verification, the object store and the presigner are parameters. Network outcomes are
also parameters. The model assumes nothing about them. It only takes the random text's
substrings, as the code does. Browser storage is a parameter too. The dashboard, editor, uploader and
signup classes keep the stored token in a `storedToken` field, which logout, the identity check, the upload and the
signup handlers write.

GET /api/demos/:id increments the view counter but answers with the row as read before the
increment (apps/backend/src/index.ts:331-351), so two reads of a new demo answer 0 and then 1.
A client might expect the answer to count the read itself; the model follows the code.
`Fetched` states it, and `BackendServer.SignupCreateAndRead` shows the two reads.

## Model

| member | source | states |
|---|---|---|
| BackendAuth.BearerTokenPresented | apps/backend/src/index.ts:114-126 | The token the guard extracts from the header is exactly the non-empty, space-free word that follows "Bearer " and ends at the end of the header or at a space. |
| BackendAuth.AuthenticateSpec | apps/backend/src/index.ts:113-137 | A request gets 401 exactly when its header presents no token. A presented token that fails verification gets 403; otherwise the verified user id is handed on. |
| BackendAuth.NoBearerScheme | apps/backend/src/index.ts:116-119 | A missing header, or one without the "Bearer " scheme, is answered 401 without any verification. |
| BackendAuth.ClientHeader | apps/web/app/dashboard/page.tsx:86-88 | The header `Bearer <token>` that the clients build reaches verification with exactly that token, for a non-empty token without spaces. |
| BackendAuth.BearerToken | apps/backend/src/index.ts:114-126 | Computes the token the guard uses. There is none for a missing header, for one without the "Bearer " scheme, or when the second piece of `split(' ')` is empty; otherwise it is that second piece. `BearerTokenPresented` characterises it. |
| BackendAuth.Authenticate | apps/backend/src/index.ts:113-137 | Computes the guard's decision: 401 "Authentication required" without a token, 403 "Invalid or expired token" when verification fails, otherwise the verified user id. `AuthenticateSpec` states it. |
| DemoSchema.Parse | apps/backend/src/index.ts:151-159 | Computes `demoSchema.safeParse`. An object body yields its seven fields when the title is a non-empty string, description, type and content are strings, thumbnail and url are absent or strings, and isPublic is absent or a boolean. Anything else yields nothing. `ParseCharacterized` states it. |
| DemoSchema.ParseEncode | apps/backend/src/index.ts:151-159 | A body carrying the schema's fields is accepted, with those fields, exactly when the title is non-empty. |
| DemoSchema.ParseCharacterized | apps/backend/src/index.ts:151-159 | `safeParse` succeeds with a given input exactly when the body is an object that agrees with that input on the seven schema keys and the title is non-empty; other keys are ignored. |
| DemoSchema.ParseRejects | apps/backend/src/index.ts:151-159 | A non-object body, an empty title, missing or non-string required fields, and wrongly typed optional fields are each rejected. |
| BackendServer.NewDemo | apps/backend/src/index.ts:275-290 | A created row takes the body's fields, starts at 0 views, belongs to the caller, and is public only when the body says `isPublic: true`. |
| BackendServer.Revised | apps/backend/src/index.ts:384-395 | An update replaces title, description, type and content. It replaces thumbnail, url and isPublic only when the body carries them, and keeps id, views, owner and creation time. |
| BackendServer.Viewed | apps/backend/src/index.ts:346-351 | Computes the row after `views: { increment: 1 }`: one more view, every other field kept. |
| BackendServer.SignupRefusal | apps/backend/src/index.ts:162-180 | Computes the 400 answer signup gives before inserting: "Passwords do not match" first, then "Email already taken" for a stored email, and none otherwise. |
| BackendServer.Protected | apps/backend/src/index.ts:232-433 | Holds for the routes mounted behind `authenticateToken`: every modelled route except signup and login. |
| BackendServer.InsertNewestFirst | apps/backend/src/index.ts:307-316 | Inserting a demo into a newest-first list adds exactly that demo (as a multiset) and keeps the list newest-first. |
| BackendServer.Server.constructor | apps/backend/src/index.ts:162-433 | The server starts with empty user and demo tables satisfying the store invariant. |
| BackendServer.Server.Signup | apps/backend/src/index.ts:162-201 | Mismatched passwords give 400 "Passwords do not match", then a taken email gives 400 "Email already taken"; both leave the store unchanged. An id already in use gives 500. Otherwise exactly one user is added, with the given email, password and name, and a token is signed for its id. Name and email format are not checked. |
| BackendServer.Server.Login | apps/backend/src/index.ts:203-230 | 200 exactly when a stored user has that email and exactly that password, with a token signed for that user's id; 401 "Invalid email or password" otherwise. |
| BackendServer.Server.Me | apps/backend/src/index.ts:232-261 | The caller's id, email, name and creation time (no password), or 404 "User not found". |
| BackendServer.Server.CreateDemo | apps/backend/src/index.ts:264-299 | A body failing the schema gives 400 and inserts nothing. An id already in use gives 500, and so does an unknown caller, whose `connect` fails. Otherwise a valid body inserts exactly one demo (views 0, owned by the caller) and answers 201 with it. |
| BackendServer.Server.ListDemos | apps/backend/src/index.ts:301-323 | Exactly the caller's demos, each once, ordered by creation time, newest first; the store is unchanged. |
| BackendServer.Server.GetDemo | apps/backend/src/index.ts:325-356 | An absent or foreign id gives 404 and changes nothing. An owned demo is answered as read, and its stored view count goes up by exactly one, with no other demo touched. |
| BackendServer.Server.UpdateDemo | apps/backend/src/index.ts:358-402 | The body is validated first, so an invalid body gives 400 even for a foreign id. An absent or foreign id then gives 404, and both leave the store unchanged. Otherwise only that demo is revised, and the revised row is answered. |
| BackendServer.Server.DeleteDemo | apps/backend/src/index.ts:404-433 | An absent or foreign id gives 404 and changes nothing; otherwise exactly that demo is removed. |
| BackendServer.Server.Serve | apps/backend/src/index.ts:113-433 | A protected route whose guard rejects answers the guard's 401/403 and leaves the store unchanged. Otherwise the handler runs as the token's user; signup and login run unguarded. |
| BackendServer.Server.ViewRepeatedly | apps/backend/src/index.ts:346-351 | n reads of an owned demo by its owner raise its views by exactly n, change nothing else, and answer the counts before each read. |
| BackendServer.SignupCreateAndRead | apps/backend/src/index.ts:162-356 | Signing up, creating a demo with the issued token and reading it twice answers 200, 201 with views 0, then 200 with views 0 and 200 with views 1. |
| BackendServer.ReadTwice | apps/backend/src/index.ts:325-356 | Two authenticated reads of an owned demo answer 200 with the row before each read: first as stored, then with one more view. |
| BackendUpload.UploadKeyRoundTrip | apps/backend/src/index.ts:451 | `uploads/<millis>-<name>` reads back as the moment and the file name. |
| BackendUpload.UploadKeyInjective | apps/backend/src/index.ts:451 | Different moments or different names give different upload keys. |
| BackendUpload.ImageKeyRoundTrip | apps/backend/src/index.ts:500 | `images/<millis>-<random from its eighth character>` reads back as the moment and that random text. |
| BackendUpload.PublicUrlEndsWithKey | apps/backend/src/index.ts:484 | The public URL is the base, a slash and the key. |
| BackendUpload.UploadKey | apps/backend/src/index.ts:451 | Computes `uploads/<Date.now()>-<originalname>`. `UploadKeyRoundTrip` and `UploadKeyInjective` are about it. |
| BackendUpload.ImageKey | apps/backend/src/index.ts:500 | Computes `images/<Date.now()>-<random text from its eighth character>`, the `substring(7)` of the base-36 text. `ImageKeyRoundTrip` is about it. |
| BackendUpload.PublicUrl | apps/backend/src/index.ts:484 | Computes the bucket's public base, a slash and the key. |
| BackendUpload.UploadImage | apps/backend/src/index.ts:436-495 | Computes the answer of POST /api/upload-image and the object sent to the store, if any. It takes the guard's decision, the file, the bucket-name variable and whether the store accepted the object. `UploadImageSpec` states its cases. |
| BackendUpload.BucketNameNonEmpty | apps/backend/src/index.ts:43 | `R2_BUCKET_NAME` is the variable when it is set and non-empty, and "bucket" otherwise, so it is never empty. |
| BackendUpload.UploadImageUrl | apps/backend/src/index.ts:498-560 | Computes the answer of GET /api/upload-image-url from the guard's decision and the presigner's outcome for the image key. `UploadImageUrlSpec` states its cases. |
| BackendUpload.UploadImageSpec | apps/backend/src/index.ts:436-495 | Something is stored exactly when the caller is authenticated and a file is present. A missing file gives 400. The 500 "R2 bucket name not configured" answer never occurs, since the bucket name is never empty. The stored object has the upload key and the file's type and size. The answer is 200 exactly when the store accepts it, and then carries the public URL of that key. |
| BackendUpload.UploadImageUrlSpec | apps/backend/src/index.ts:498-560 | An authenticated request gets the presigned URL for its image key together with that key and its public URL, or 500 when presigning fails. The key keeps the moment and the random text. |
| Dashboard.FilteredMembers | apps/web/app/dashboard/page.tsx:120-125 | A demo is shown exactly when it is in the list, its lower-cased title or description includes the lower-cased query, and the filter is "all" or equals its type. |
| Dashboard.Filtered | apps/web/app/dashboard/page.tsx:120-125 | The filter never lengthens the list. |
| Dashboard.FilteredIsSubsequence | apps/web/app/dashboard/page.tsx:120-125 | The shown demos are a subsequence of the list, in its order. |
| Dashboard.FilteredAppend | apps/web/app/dashboard/page.tsx:100-101 | Filtering the merged API and local lists filters each part and concatenates the results. |
| Dashboard.UnfilteredShowsAll | apps/web/app/dashboard/page.tsx:120-125 | An empty query with the "all" filter shows the whole list unchanged. |
| Dashboard.TypeFilterOnly | apps/web/app/dashboard/page.tsx:120-125 | With an empty query, exactly the demos of the chosen type are shown. |
| Dashboard.MatchesQuery | apps/web/app/dashboard/page.tsx:122-123 | Holds when the lower-cased title or description includes the lower-cased query. |
| Dashboard.Shown | apps/web/app/dashboard/page.tsx:120-125 | Holds for a demo that matches the query and whose type equals the filter, unless the filter is "all". |
| Dashboard.DashboardPage.Visible | apps/web/app/dashboard/page.tsx:120-125 | Computes `filteredDemos`: the page's demos filtered by its search query and active filter. `FilteredMembers` and `FilteredIsSubsequence` are about it. |
| Dashboard.DashboardPage.FetchDemos | apps/web/app/dashboard/page.tsx:73-118 | With no token, the error "Authentication token not found. Please log in." is set and the demos stay as they were. A successful fetch gives the API list followed by the local list. A failed fetch gives the local list alone, and sets an error (the server's message or "Failed to load demos.") only when that list is empty. Loading ends in every case. |
| Dashboard.DashboardPage.HandleLogout | apps/web/app/dashboard/page.tsx:127-130 | The stored token is removed, and nothing else changes. |
| Dashboard.DashboardPage.constructor | apps/web/app/dashboard/page.tsx:63-69 | The page starts with no demos, loading, no error, an empty search and the "all" filter. |
| CreateDemo.AddNewStep | apps/web/app/create-demo/page.tsx:91-99 | Exactly one step is appended, numbered old length + 1 and titled "Step <old length + 1>", with the placeholder images; earlier steps are unchanged. |
| CreateDemo.AddNewStepNumbered | apps/web/app/create-demo/page.tsx:91-99 | Adding a step keeps every step i numbered i + 1 and titled "Step <i + 1>". |
| CreateDemo.AddStepsNumbered | apps/web/app/create-demo/page.tsx:57-64 | Any number of additions keeps every step i numbered i + 1 and titled "Step <i + 1>". |
| CreateDemo.InitialStepsNumbered | apps/web/app/create-demo/page.tsx:57-64 | From the single initial step, n additions give n + 1 correctly numbered steps. |
| CreateDemo.FreshStep | apps/web/app/create-demo/page.tsx:91-99 | Computes the step `addNewStep` appends to n steps: numbered n + 1, titled "Step <n + 1>", with the placeholder image and thumbnail. |
| CreateDemo.Content | apps/web/app/create-demo/page.tsx:163-166 | Computes the `content` string: `JSON.stringify` of the steps with image and thumbnail removed. `ContentRecoversSteps` and `ContentIgnoresImages` are about it. |
| CreateDemo.ShareThumbnail | apps/web/app/create-demo/page.tsx:167 | Computes the shared thumbnail: the first step's image, or the placeholder when there is no step or its image is empty. |
| CreateDemo.ShareInput | apps/web/app/create-demo/page.tsx:154-168 | Computes the demo `handleShare` posts: the share title and description, type "interactive", the content, the thumbnail, the privacy choice, and no url. `SharePassesSchema` is about it. |
| CreateDemo.PrivacyChoice | apps/web/app/create-demo/page.tsx:268 | Holds exactly for the select value "public". |
| CreateDemo.WithImage | apps/web/app/create-demo/page.tsx:131-144 | Only the step at the selected index gets the URL as image and thumbnail; its id, its title and every other step are unchanged, and an out-of-range index leaves the list unchanged. |
| CreateDemo.WithImageNumbered | apps/web/app/create-demo/page.tsx:131-144 | Replacing an image never renumbers or retitles a step. |
| CreateDemo.Summaries | apps/web/app/create-demo/page.tsx:163-166 | The shared summaries keep, position by position, each step's id and title and nothing else. |
| CreateDemo.ContentRecoversSteps | apps/web/app/create-demo/page.tsx:163-166 | The shared content reads back as the steps' numbers and titles, in order: images and thumbnails are stripped. |
| CreateDemo.ContentIgnoresImages | apps/web/app/create-demo/page.tsx:131-144 | Replacing a step's image never changes the shared content. |
| CreateDemo.SharePassesSchema | apps/web/app/create-demo/page.tsx:154-168 | Whenever the title is not blank, the shared body passes the backend's demo schema with exactly the fields it was built from. |
| CreateDemo.Editor.HandleImageUpload | apps/web/app/create-demo/page.tsx:101-152 | With no file, no token or a failed upload the steps are unchanged; otherwise the selected step shows the returned URL. The numbering invariant is kept. |
| CreateDemo.Editor.AddStep | apps/web/app/create-demo/page.tsx:91-99 | The state's steps become `AddNewStep` of the old steps, keeping the numbering invariant, with nothing else changed. |
| CreateDemo.Editor.constructor | apps/web/app/create-demo/page.tsx:36-64 | The editor starts with the single step "Step 1" selected, an empty share form and a private demo. |
| CreateDemo.Editor.SelectStep | apps/web/app/create-demo/page.tsx:337 | Clicking a step selects it and changes nothing else. |
| CreateDemo.Editor.SetPrivacy | apps/web/app/create-demo/page.tsx:268 | `isPublic` becomes true exactly when the selected value is "public". |
| CreateDemo.Editor.HandleShare | apps/web/app/create-demo/page.tsx:154-194 | A body is sent exactly when the trimmed title is non-empty and a token is stored. The body has type "interactive", the steps' content, the first step's image or the placeholder as thumbnail, and the chosen privacy. The dialog closes only when the request goes through. |
| StepsJson.DecodeEncode | apps/web/app/create-demo/page.tsx:163-166 | Every array of `{"id":n,"title":"..."}` objects written as `JSON.stringify` writes it reads back as the same list. |
| StepsJson.EncodeInjective | apps/web/app/create-demo/page.tsx:163-166 | Different step lists give different content strings. |
| JsonText.ReadEscaped | apps/web/app/create-demo/page.tsx:163-166 | A string escaped as `JSON.stringify` escapes it, followed by a closing quote, reads back as itself and whatever follows. |
| FileUploader.Rejection | apps/web/components/FileUploader.tsx:78-88 | A file is refused exactly when its type is not jpeg, png, gif or webp, or it is larger than 5 * 1024 * 1024 bytes. The type is checked first. |
| FileUploader.ValidFiles | apps/web/components/FileUploader.tsx:76-88 | The kept files are among the chosen ones and each passes the check. |
| FileUploader.Previews | apps/web/components/FileUploader.tsx:90-94 | One preview URL per kept file, at the same position. |
| FileUploader.Uploader.constructor | apps/web/components/FileUploader.tsx:18-24 | The uploader starts with an empty queue, not uploading and not authenticated. |
| FileUploader.ValidFilesMembers | apps/web/components/FileUploader.tsx:14-15 | A selected file is kept exactly when its type is allowed and its size is at most 5 MiB. |
| FileUploader.EveryFileAccountedFor | apps/web/components/FileUploader.tsx:76-88 | Every selected file is either kept or reported by one error toast. |
| FileUploader.ValidFilesKeepsValid | apps/web/components/FileUploader.tsx:76-88 | A selection of acceptable files is kept whole, in order. |
| FileUploader.ValidFilesIsSubsequence | apps/web/components/FileUploader.tsx:76-88 | The kept files are a subsequence of the selection: they keep its order. |
| FileUploader.RejectionMessages | apps/web/components/FileUploader.tsx:76-88 | Computes the error toasts of a selection, one per refused file in selection order. Each is the message of the first check that file fails. `EveryFileAccountedFor` is about it. |
| FileUploader.RemoveAt | apps/web/components/FileUploader.tsx:55-65 | Removing position i drops exactly that element and keeps the rest in order; an index outside the list removes nothing. |
| FileUploader.Uploader.HandleFileChange | apps/web/components/FileUploader.tsx:73-98 | With no valid file the lists are unchanged. Otherwise files and previews are both extended at the end by the valid files and their preview URLs, in input order, keeping the lists the same length. |
| FileUploader.Uploader.HandleRemoveFile | apps/web/components/FileUploader.tsx:55-65 | Position i leaves both `files` and `previewUrls`, and the lists stay the same length. |
| FileUploader.Uploader.HandleRemoveAll | apps/web/components/FileUploader.tsx:67-71 | Both lists become empty. |
| FileUploader.Uploader.HandleUpload | apps/web/components/FileUploader.tsx:100-158 | No upload starts when the user is not authenticated or no file is queued. Success empties the queue; a 401 failure removes the token; another failure shows the server's error or "Upload failed". Uploading ends afterwards. |
| FileUploader.Uploader.CheckAuth | apps/web/components/FileUploader.tsx:26-45 | With a token, a successful identity check authenticates the user and a failed one removes the token; without one nothing changes. |
| Landing.PrevUndoesNext | apps/web/app/page.tsx:50-56 | Previous undoes next and next undoes previous. |
| Landing.Wraparound | apps/web/app/page.tsx:50-56 | Next from the last slide goes to the first, and previous from the first goes to the last. |
| Landing.NextTimesIsModular | apps/web/app/page.tsx:50-52 | k forward steps from slide i land on (i + k) mod 4. |
| Landing.FullCycle | apps/web/app/page.tsx:9-34 | Four forward steps come back to the starting slide. |
| Landing.NextIndex | apps/web/app/page.tsx:50-52 | The next index stays within [0, 4). |
| Landing.PrevIndex | apps/web/app/page.tsx:54-56 | The previous index stays within [0, 4). |
| Landing.Carousel.constructor | apps/web/app/page.tsx:37-38 | The carousel starts on the first slide, playing. |
| Landing.Carousel.NextSlide | apps/web/app/page.tsx:50-52 | The index becomes (i + 1) mod 4 and stays within [0, 4). |
| Landing.Carousel.PrevSlide | apps/web/app/page.tsx:54-56 | The index becomes (i - 1 + 4) mod 4 and stays within [0, 4). |
| Landing.Carousel.TogglePlay | apps/web/app/page.tsx:185 | The play button flips `isPlaying` and leaves the slide alone. |
| Landing.Carousel.Tick | apps/web/app/page.tsx:40-48 | A timer firing advances the slide only while playing. |
| UploadR2.ExtensionSpec | apps/web/api/upload-r2/route.ts:27 | The extension is "zip" for a zip upload. Otherwise it is the dot-free end of the file name that a dot precedes, or the whole name when it has no dot. |
| UploadR2.ObjectNameSpec | apps/web/api/upload-r2/route.ts:25-28 | The object name `demos/<millis>-<random>.<extension>` reads back as its moment, and its last dot-separated piece is the extension. |
| UploadR2.Extension | apps/web/api/upload-r2/route.ts:27 | Computes the extension: "zip" for a zip upload, else `name.split(".").pop()`. `ExtensionSpec` characterises it. |
| UploadR2.ObjectName | apps/web/api/upload-r2/route.ts:25-28 | Computes `demos/<Date.now()>-<random characters 2 to 15>.<extension>`. `ObjectNameSpec` is about it. |
| UploadR2.ContentType | apps/web/api/upload-r2/route.ts:39 | Computes the file's type, or "application/octet-stream" when it is empty. |
| UploadR2.Post | apps/web/api/upload-r2/route.ts:14-57 | Computes the route's answer and the object sent to the store, if any. It takes the form body and whether the store accepted the object. `PostSpec` states its cases. |
| UploadR2.PostSpec | apps/web/api/upload-r2/route.ts:14-57 | A body that is not a form, or a `file` field of non-empty text, gives 500 "Upload failed" and stores nothing. No `file` field, or an empty text one, gives 400 "No file provided" and stores nothing. An object is sent to the store exactly when the field holds a file. The object is stored under the derived name with the file's type, or "application/octet-stream" when that is empty. The answer is 200 with the public URL, the name and the type field exactly when the store accepts it, and 500 "Upload failed" otherwise. |
| SignupPage.FormRefusal | apps/web/app/signup/page.tsx:30-38 | The terms box is checked first ("Please agree to the Terms of Service and Privacy Policy"). Then an empty first name, last name, email or password gives "All fields are required"; company is not checked. |
| SignupPage.BodyName | apps/web/app/signup/page.tsx:43-48 | The name sent is the first name, one space and the last name. |
| SignupPage.FormBodyPassesPasswordCheck | apps/web/app/signup/page.tsx:43-48 | The body the form sends never meets the backend's password-mismatch branch; the backend can refuse it only for a taken email. |
| SignupPage.Body | apps/web/app/signup/page.tsx:43-48 | Computes the body the form sends: the joined name, the email, the password, and the password again as `confirmPassword`. |
| SignupPage.ReplyError | apps/web/app/signup/page.tsx:63-77 | Computes the error a reply leaves. A non-empty token leaves none. Otherwise it is "Invalid response from server", the server's message or "Signup failed. Please try again.", "No response from server. Please try again.", or "An error occurred. Please try again.". |
| SignupPage.Form.HandleSubmit | apps/web/app/signup/page.tsx:26-81 | A refused form sends nothing and shows the refusal. Otherwise the body is sent; a returned token is stored. A missing token shows "Invalid response from server". An error response shows its message or "Signup failed. Please try again.". No response and other errors show their fixed messages. |
| SignupPage.Form.constructor | apps/web/app/signup/page.tsx:15-23 | The form starts empty, with the terms box unchecked, no error and not loading. |
| Text.JoinSplit | apps/backend/src/index.ts:121 | `split(' ')` loses nothing: joining the pieces gives back the header. |
| Text.LastPieceIsSuffix | apps/web/api/upload-r2/route.ts:27 | `split('.').pop()` is a dot-free end of the name, preceded by a dot when the name has one. |
| Text.TrimEmptyIffBlank | apps/web/app/create-demo/page.tsx:155 | `trim()` is empty exactly when the string is all white space. |
| Text.ContainsAt | apps/web/app/dashboard/page.tsx:122-123 | `includes` holds exactly when the part occurs at some position. |
| Text.DigitsValueOfNatToString | apps/backend/src/index.ts:451 | The decimal rendering of a number reads back as that number. |

## Left out

- I/O is not modelled: the S3/R2 client calls, presigned-URL generation and its 3600 s expiry, the R2 connection probe, the test, debug, health and download-URL endpoints, environment-variable checks and logging. They are foreign calls. Where the route handlers depend on them, the outcome is a parameter.
- The Prisma database is not modelled. Two database failures are modelled, and both answer 500. One is an id collision at insert. The other is a demo created for a caller with no user row, whose `user: { connect: { id } }` fails (apps/backend/src/index.ts:286-290). Other exceptions the handlers turn into 500 are not modelled.
- `updatedAt` is not modelled: the code never reads it.
- A demo created without `isPublic` is taken to be private. The handler passes the raw `undefined` to Prisma, so the column default applies; the schema file holding that default is not part of this model.
- Password hashing is not modelled: there is none, and passwords are compared as stored.
- Token signing and verification are the parameters `sign` and `verify`. The JWT format and secret are not modelled.
- Signup and login bodies with non-string fields, and a missing email, are not modelled. The model takes the fields as strings.
- The `!req.user` checks inside the handlers are not modelled: they cannot fail after `authenticateToken` has passed.
- Concurrency between requests is not modelled, including the non-atomic find-then-increment. Requests are handled one at a time.
- The browser is not modelled: React rendering, animation, toasts, routing, `localStorage` JSON parsing, the `typeof window` check, and `URL.revokeObjectURL`.
- Upload progress percentages in FileUploader are not modelled: they are floating point.
- The 4-second `setInterval` timing of the carousel is not modelled. `Tick` models one firing.
- `toLowerCase` is modelled on the ASCII letters only. Unicode case mapping has no counterpart here.
- A demo card on the dashboard carries only the fields the filter reads. The other fields the page renders are not modelled.
- Strings are Dafny `seq<char>`, whose elements are Unicode scalar values, while JavaScript strings are UTF-16 code units. Nothing here depends on the difference. The only substrings taken by position are of the ASCII base-36 random text, and `split`, `trim` and `includes` give the same strings under either reading.
- UploadR2.Post: a `type` form field that holds a file rather than text is not modelled. The route echoes it in its answer, and the model takes `type` as optional text.
