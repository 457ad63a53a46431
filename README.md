# sib-dapp certificate core, modelled in Dafny

sib-dapp issues university diploma certificates ("ijazah") as accounts of a
Solana program. Each certificate's PDF attachment is pinned to IPFS through
Pinata, and a metadata record (address, certificate number, content id,
file name, digest) is kept in a Mongo `certs` collection. The model covers:

- the admin-authorisation cache of the `useAdmin` hook;
- the wallet session guard, the navigation bar's per-wallet flag and the
  admin route gate;
- the RPC endpoint choice and the IPFS gateway helpers;
- the client that saves metadata, and the three server handlers that store
  it (the local development server, the serverless save function and the
  serverless upload function);
- the two certificate-creation pages: the current one writes the ledger
  record first and uploads afterwards, the older one uploads first. Also the
  library flow `saveCertificateWithFile`;
- the admin dashboard (listing, normalising, merging, sorting, editing);
- the public verification page and the certificate details card.

Nothing touches the outside world. Each outside effect becomes an input of
the model:

- a hash function, a program-address derivation, a public-key decoder, an
  account fetch and a URI decoder are function parameters;
- the clock is a number parameter;
- the outcome of each network call (RPC probe, upload, ledger transaction,
  database operation, HTTP reply) is a datatype value;
- the calls a flow makes are recorded as a trace of `Upload`,
  `AddCertificate` and `SaveMeta` events.

Properties that hold for all inputs are then proved about the flows. State
the source keeps in React refs, component state, `localStorage` or module
variables lives in classes whose methods are proved equal to specification
functions.

Modules: `JsCore` (JavaScript values, `trim`, hex, slicing), `LocalStore`
(`localStorage`), `AdminCache`, `SessionGuard`, `TopNav`, `RequireAdmin`,
`Rpc`, `IpfsGateway`, `OffchainClient`, `MetaStore`, `LocalServer`,
`SaveHandler`, `PinataUpload`, `CertForm`, `CertSaga`, `AddCertificate`,
`LegacyAdmin`, `SaveCertificate`, `Dashboard`, `DetailsCard`,
`VerifyCertificate`.

## Model

| member | source | states |
|---|---|---|
| JsCore.Trim | src/lib/rpc.js:14 | the trimmed text has no JavaScript whitespace at either end, and it is empty exactly when the input is all whitespace |
| JsCore.TrimRemovesOuterSpace | src/lib/rpc.js:14 | the trimmed text is an infix of the input with only whitespace cut off before and after it |
| JsCore.TrimIsIdempotent | src/lib/rpc.js:14 | trimming twice is trimming once |
| JsCore.HexRoundTrip | src/pages/Admin/admin.jsx:99-105 | the lowercase hex text of a byte sequence decodes back to the same bytes |
| JsCore.HexOfIsLowercaseHex | src/components/CertificateDetailsCard.jsx:9-23 | every character of hex text is one of 0-9a-f |
| JsCore.LexLeTotal | src/pages/Admin/AdminDashboard.jsx:85 | the string order used for sorting is total |
| JsCore.LexLeTransitive | src/pages/Admin/AdminDashboard.jsx:85 | the string order used for sorting is transitive |
| JsCore.Lower | src/pages/Admin/AdminAddCertificate.jsx:31-36 | lower-casing keeps the length and maps each ASCII capital to its small letter, leaving every other character as it is |
| JsCore.StripTrailingSlashes | src/lib/ipfs-vercel.ts:1-3 | the result is a prefix of the input, differs from it only by slashes, and does not end in a slash |
| JsCore.WithOneTrailingSlash | src/lib/ipfs-vercel.ts:1-3 | the base ends in exactly one slash, after the input with its trailing slashes removed |
| JsCore.NatToStringIsDecimal | src/lib/save-to-offchain.ts:45 | `String(n)` of a natural number is a string of decimal digits denoting n, with a leading "0" only for 0 |
| JsCore.NatToStringInjective | src/lib/save-to-offchain.ts:45 | different numbers have different decimal texts |
| JsCore.Utf8Length | src/lib/program.ts:43 | the UTF-8 byte length `Buffer.from` gives a text is between one and four bytes per character |
| JsCore.Utf8LengthOfAscii | src/lib/program.ts:43 | the UTF-8 length equals the character count iff every character is ASCII |
| AdminCache.CacheKey | src/hooks/useAdmin.ts:58-63 | the cache key starts with "sib-admin-registry:" and ends with ":v1" |
| AdminCache.ComputeIsAdmin | src/hooks/useAdmin.ts:83-86 | a principal is admin iff it is non-empty and is the super-admin or is in the admin list |
| AdminCache.FreshnessWindow | src/hooks/useAdmin.ts:79-80 | a cache entry is fresh iff it exists and is at most 300000 ms old (the TTL of line 8) |
| AdminCache.FetchWithRetry | src/hooks/useAdmin.ts:119-131 | at most one attempt plus three retries; the delays slept are the prefix of the 500/1500/3000 ms back-off before the attempts made; every earlier attempt failed; the result is the first completed attempt, or "exhausted" only after all four failed |
| AdminCache.FirstCompletedWindow | src/hooks/useAdmin.ts:119-131 | the first completed attempt of a window depends only on the attempts in that window, and there is none iff every attempt in it failed |
| AdminCache.RetryLooksAtFirstAttemptsOnly | src/hooks/useAdmin.ts:119-131 | the retried read depends only on its first four attempts (one plus the three back-off delays), and is exhausted iff all four failed |
| AdminCache.WalletStep | src/hooks/useAdmin.ts:89-95 | a wallet change records the new principal and drops stickiness; the same wallet changes nothing; no other field changes |
| AdminCache.BeginStep | src/hooks/useAdmin.ts:134-168 | a sticky same-wallet or in-flight reload is skipped with no change; otherwise the error is cleared, a cached registry sets the verdict (fresh or stale), offline settles without fetching, and a fetch raises the in-flight and loading flags |
| AdminCache.FinishStep | src/hooks/useAdmin.ts:171-205 | in-flight and loading always end down; exhausted retries keep the verdict, set the error and reset the registry flag to unknown when the reload's captured flag was unknown, otherwise keep it; a missing registry marks it uninitialised and keeps any earlier admin verdict; a successful read recomputes the verdict, stores the cache entry and makes an admin sticky |
| AdminCache.ExhaustedReloadLeavesRegistryUnknown | src/hooks/useAdmin.ts:197-201 | a reload that began with the registry flag unknown and whose read was exhausted leaves the flag unknown, the error set, the flags down and the cached registry shown |
| AdminCache.CoalescedWhileInFlight | src/hooks/useAdmin.ts:138-139 | a reload started while another is in flight changes nothing |
| AdminCache.EveryExitClearsInFlight | src/hooks/useAdmin.ts:158-204 | every exit of a reload that began leaves the in-flight and loading flags down |
| AdminCache.FailedReloadNeverDemotes | src/hooks/useAdmin.ts:173-201 | a reload whose read failed or found no registry never lowers an admin verdict |
| AdminCache.FreshCacheGivesSameVerdict | src/hooks/useAdmin.ts:147-188 | within five minutes of a successful read, the next reload by the same wallet answers from the cache with the same verdict |
| AdminCache.TransportFailuresNeverDemote | src/hooks/useAdmin.ts:197-201 | across any sequence of wallet-preserving events whose reads all fail, an admin stays admin |
| AdminCache.StickySessionIsFrozen | src/hooks/useAdmin.ts:134-137 | once sticky for the current wallet, any sequence of reloads by that wallet leaves the state unchanged |
| AdminCache.StickyOutlivesDemotion | src/hooks/useAdmin.ts:154-196 | a concrete session ends sticky but no longer admin: the success path never clears stickiness set by a stale cache hit |
| AdminCache.AdminSession.constructor | src/hooks/useAdmin.ts:45-56 | a mounted hook starts in the initial state over the stored cache entry |
| AdminCache.AdminSession.OnWalletChange | src/hooks/useAdmin.ts:89-95 | the session state becomes the wallet step of the old state |
| AdminCache.AdminSession.BeginReload | src/hooks/useAdmin.ts:133-168 | the state and phase after the synchronous part equal the begin step |
| AdminCache.AdminSession.FinishReload | src/hooks/useAdmin.ts:171-205 | the state after the awaited read equals the finish step, given the registry flag the reload captured |
| AdminCache.AdminSession.Reload | src/hooks/useAdmin.ts:133-214 | a whole reload, capturing the registry flag at its start, equals the begin step at the first clock reading then the finish step, stamped with the clock read after the await, over the retried read |
| SessionGuard.IsAdminKey | src/components/WalletSessionGuard.jsx:11 | the per-wallet flag key carries the app prefix "sib:" |
| SessionGuard.AppCacheCleared | src/components/WalletSessionGuard.jsx:9-21 | clearing keeps exactly the keys outside the app prefix, with their values |
| SessionGuard.ClearIsIdempotent | src/components/WalletSessionGuard.jsx:9-21 | clearing twice is clearing once |
| SessionGuard.CollectAppKeys | src/components/WalletSessionGuard.jsx:12-16 | the loop over `localStorage.key(i)` collects exactly the stored keys with the app prefix |
| SessionGuard.RemoveAll | src/components/WalletSessionGuard.jsx:17 | removing each collected key removes exactly those keys and keeps storage well formed |
| SessionGuard.ClearAppCache | src/components/WalletSessionGuard.jsx:9-21 | storage afterwards holds exactly the non-prefixed keys with their old values |
| SessionGuard.ResetCases | src/components/WalletSessionGuard.jsx:73-89 | no reset on a first connection or an unchanged connection; a reset on a disconnect and on an account switch |
| SessionGuard.ResetIffSwitched | src/components/WalletSessionGuard.jsx:73-89 | connected before and after, the guard resets iff the account or the adapter changed |
| SessionGuard.Guard.constructor | src/components/WalletSessionGuard.jsx:29-32 | the refs start disconnected, empty and with no reload scheduled |
| SessionGuard.Guard.ReloadOnce | src/components/WalletSessionGuard.jsx:32-42 | a reload timer is started only when none is pending, so exactly one is pending afterwards however often it is called; the connection refs are unchanged |
| SessionGuard.Guard.OnDisconnect | src/components/WalletSessionGuard.jsx:49-52 | a disconnect clears the app cache and leaves exactly one reload pending |
| SessionGuard.Guard.OnStateChange | src/components/WalletSessionGuard.jsx:68-95 | the refs record the new state; storage is cleared and a reload scheduled exactly when the transition resets, and never more than one reload is pending even when two reset cases fire |
| TopNav.LsKey | src/components/TopNav.jsx:21-24 | the flag key is empty iff no wallet is connected, else the session guard's per-wallet key |
| TopNav.PersistAdminFlag | src/components/TopNav.jsx:26-32 | with a wallet and an admin verdict, "1" is stored under the wallet's key; otherwise storage is unchanged |
| TopNav.CachedAdmin | src/components/TopNav.jsx:35-42 | the cached flag holds iff a wallet is connected and exactly "1" is stored under its key |
| TopNav.View | src/components/TopNav.jsx:46-63 | the admin link shows iff the hook or the flag says admin; the checking notice shows only while loading with neither; never both |
| TopNav.RenderStep | src/components/TopNav.jsx:21-46 | one render: the flag is re-read from storage only on mount or a wallet change, otherwise the memoised value is kept; the view combines it with the hook's verdict; the effect stores "1" only when it runs (mount, wallet change or verdict change) with a wallet and an admin verdict |
| TopNav.Nav.Render | src/components/TopNav.jsx:21-46 | the component's render updates its memo state and storage exactly as RenderStep says |
| TopNav.FlagReadOnMountShowsLink | src/components/TopNav.jsx:35-46 | a flag found in storage on mount or a switch to this wallet keeps the Admin link on every later render for that wallet, whatever the hook says |
| TopNav.FlagWrittenWhileMountedIsNotReread | src/components/TopNav.jsx:26-46 | a flag written by the effect during a mount is not re-read: once the hook turns to not admin the link disappears although the flag is stored |
| TopNav.ClearingDropsFlagKeepsRegistryCache | src/components/TopNav.jsx:21-24 | the session guard's clearing removes the flag but keeps the registry cache entry of the admin hook |
| RequireAdmin.Gate | src/routes/RequireAdmin.jsx:10-32 | each of the five views (connect prompt, checking, registry missing, redirect, children) is rendered exactly under its own condition |
| RequireAdmin.LoadingHidesVerdict | src/routes/RequireAdmin.jsx:16-20 | while loading, only the checking notice renders |
| RequireAdmin.UnlistedWalletIsRedirected | src/routes/RequireAdmin.jsx:28-30 | after a successful read that lists neither the wallet nor it as super-admin, the wallet is redirected to verification |
| RequireAdmin.SuperAdminIsAdmitted | src/routes/RequireAdmin.jsx:32 | after a successful read naming the wallet super-admin, the admin pages render |
| Rpc.HttpsPrefixIsHttpUrl | src/lib/rpc.js:15 | any text after "https://" is an http(s) URL |
| Rpc.GetRpcEndpoint | src/lib/rpc.js:13-17 | the trimmed configured URL when it is http(s), else the devnet default; always an http(s) URL |
| Rpc.FirstWorkingFromIsFirst | src/lib/rpc.js:26-38 | the reference choice is a listed entry whose probe answered with every earlier probe failed, and an error with the "No devnet RPC endpoint is responding" message iff every probe fails |
| Rpc.ChooseWorkingEndpoint | src/lib/rpc.js:26-38 | the loop returns the reference choice: the first listed endpoint whose probe succeeds, every earlier probe having failed; an error iff every probe fails |
| Rpc.Connections.constructor | src/lib/rpc.js:23-24 | no endpoint and no connection are cached at start |
| Rpc.Connections.MakeConnection | src/lib/rpc.js:40-54 | the cached connection unless forced; else the primary endpoint when it answers; else exactly the reference choice over the devnet candidates (the first one whose probe answers, an error iff none does), which is cached; a failure leaves the cache unchanged |
| Rpc.Connections.GetChosenEndpoint | src/lib/rpc.js:60-63 | the probed endpoint when one was chosen, else the simple configured endpoint |
| Rpc.ChosenEndpointIsHttp | src/lib/rpc.js:60-63 | whatever was chosen, the reported endpoint is an http(s) URL |
| IpfsGateway.Gateway | src/lib/ipfs-vercel.ts:1-3 | the gateway base ends in exactly one slash; the default when unset |
| IpfsGateway.ToGatewayUrl | src/lib/ipfs-vercel.ts:24-31 | "" stays "", an ipfs:// URI becomes the gateway base plus the content id, anything else is kept |
| IpfsGateway.GatewayLinkOfCid | src/lib/ipfs-vercel.ts:24-31 | the link of ipfs://cid is the gateway base followed by cid |
| IpfsGateway.ConversionIsIdempotent | src/lib/ipfs-vercel.ts:24-31 | with an http(s) gateway, converting a converted link changes nothing |
| IpfsGateway.DefaultGatewayIsHttp | src/lib/ipfs-vercel.ts:1-3 | the default gateway is an http URL |
| IpfsGateway.UploadEndpoint | src/lib/ipfs-vercel.ts:6-11 | the configured upload endpoint, else the default route |
| IpfsGateway.UploadViaVercel | src/lib/ipfs-vercel.ts:10-20 | a non-ok reply throws with its text; an ok reply yields its JSON |
| OffchainClient.RoutePath | src/lib/save-to-offchain.ts:14-15 | a trimmed path starting with "/" is the route as it is; any other trimmed path gets one "/" put in front |
| OffchainClient.JoinUrl | src/lib/save-to-offchain.ts:12-17 | the URL is the base without trailing slashes followed by the route |
| OffchainClient.SlashesOnBaseDoNotMatter | src/lib/save-to-offchain.ts:13 | adding trailing slashes to the base does not change the joined URL |
| OffchainClient.FailureMessage | src/lib/save-to-offchain.ts:45 | the failure message starts with "Save metadata failed: " and ends with the body as text |
| OffchainClient.FailureMessageShowsReply | src/lib/save-to-offchain.ts:45 | after the prefix the message holds the status in decimal digits without a leading zero, then a space, the status text, " — " and the body as text |
| OffchainClient.ResponseBody | src/lib/save-to-offchain.ts:39-45 | a failed read or an empty text gives ""; a text that parses as a JSON string gives that string, one that parses as another value gives that value, one that does not parse gives the text itself |
| OffchainClient.SaveError | src/lib/save-to-offchain.ts:24-46 | no error iff the three required fields are present and the request was answered with an ok reply; missing fields give their own message, a rejected request its rejection's message, a non-ok reply the failure message over the response body |
| OffchainClient.SaveCertMetaToApi | src/lib/save-to-offchain.ts:22-50 | nothing is sent iff a required field is missing; otherwise one JSON POST to the joined save URL, failing with the rejection's message when the request is rejected, and resolving with the body iff it is answered with an ok reply |
| MetaStore.Field | server.js:161 | a missing field reads as undefined |
| MetaStore.StringOrNull | server.js:177-180 | a truthy value becomes its string form, a falsy one null |
| MetaStore.BuildDoc | server.js:173-182 | the stored document has exactly the eight fields; required fields as strings, optional ones as string or null, and the update time |
| MetaStore.Upserted | server.js:184-188 | the set fields overwrite, other existing fields stay, and an insert adds the address and the creation time |
| MetaStore.CertStore.constructor | server.js:20 | the collection starts empty |
| MetaStore.CertStore.FindOne | server.js:212 | finds exactly the document stored under the address |
| MetaStore.CertStore.Upsert | server.js:184-188 | only the document under the address changes, to its upserted form |
| MetaStore.CreatedAtIsStable | server.js:184-188 | any later sequence of saves keeps a document's creation time |
| MetaStore.SaveTwiceIsSaveOnce | server.js:184-188 | saving the same record twice leaves the document of one save at the later time |
| LocalServer.RouteOf | server.js:45-238 | preflight on OPTIONS, upload and save on POST to their paths, lookup on GET under /api/certs/, else no route |
| LocalServer.LastSegment | server.js:203 | the text after the last slash: a suffix with no slash |
| LocalServer.LookupPathFindsAddress | server.js:201-203 | a lookup path built from a slash-free address routes to lookup and yields that address |
| LocalServer.Concat | server.js:61 | the concatenation is empty iff every chunk is, and starts with the first chunk |
| LocalServer.ReadBody | server.js:59-61 | the body-reading loop yields the concatenation of every chunk |
| LocalServer.LookupBody | server.js:220-228 | the reply holds the stored fields, ok, and both links; links are null without a content id |
| LocalServer.Server.constructor | server.js:20 | no database client exists at start |
| LocalServer.Server.GetDb | server.js:20-34 | the database client exists afterwards |
| LocalServer.UploadPinned | server.js:59-96 | a file is handed to the pinning service iff the body is non-empty and the file name header (default "upload.bin") decodes; it carries the decoded name and the whole body |
| LocalServer.UploadOutcome | server.js:54-142 | an empty body is 400, an undecodable name or a pinning error 500 with its message or details; 200 iff the file was pinned with a content id, answering the three identifiers; the collection changes only after a successful pin with an address header and a working database, by upserting the content id, name and time |
| LocalServer.SaveOutcome | server.js:143-200 | empty body 400, parse error 500, missing field 400, database failure 500; 200 iff all pass, answering the ipfs link and upserting the built document; otherwise the collection is unchanged |
| LocalServer.LookupOutcome | server.js:201-234 | the collection never changes; a missing address is 400, a database failure 500, an unknown address 404; 200 iff the address is stored, answering its lookup body |
| LocalServer.HandleOutcome | server.js:37-238 | preflight 204 and unknown routes 404 with nothing changed; each route's outcome is exactly that route's function |
| LocalServer.OnlyPostsWrite | server.js:37-238 | only a POST to the upload or the save path can change the collection |
| LocalServer.Server.HandleUpload | server.js:54-142 | the reply, the collection and the client flag are exactly UploadOutcome's, the pinned file UploadPinned's |
| LocalServer.Server.HandleSave | server.js:143-200 | the reply, the collection and the client flag are exactly SaveOutcome's |
| LocalServer.Server.HandleLookup | server.js:201-234 | the reply and the client flag are exactly LookupOutcome's |
| LocalServer.Server.Handle | server.js:37-238 | the reply, the collection and the client flag are exactly HandleOutcome's, so each route is served by its own method |
| LocalServer.SaveRequestStores | server.js:184-194 | a complete save request through the handler answers 200 and upserts the built document under its address |
| LocalServer.LookupRequestFinds | server.js:201-228 | a lookup request for a slash-free stored address through the handler answers 200 with that document's lookup body |
| LocalServer.SavedDocLooksUp | server.js:184-228 | the lookup body of a just-saved document holds every saved field, both links from its content id, and the rest of the older document |
| LocalServer.SaveThenLookup | server.js:143-228 | a save through the handler followed by a lookup of the same slash-free address answers 200 with every saved field, both links and the rest of the older document |
| SaveHandler.CorsConfig | api/certs/save.js:5 | the trimmed configured origin, "auto" when unset |
| SaveHandler.AllowOrigin | api/certs/save.js:7-19 | "*" stays "*", "auto" echoes the request origin (or "*"), and any other value is sent as is |
| SaveHandler.BodyFields | api/certs/save.js:37 | an empty or missing body is the empty object, an object is kept, text is parsed |
| SaveHandler.Handle | api/certs/save.js:27-77 | the origin header is always set; preflight 204, other methods 405, parse error 500, missing field 400, connection failure 500 with the "Database not configured" text, failed write 500 with its error text, else 200 storing the document; no change unless 200 |
| PinataUpload.DefaultName | api/pinata-upload.ts:43 | the default name is "upload-", the decimal form of the time, then ".bin" |
| PinataUpload.DefaultNameShowsTime | api/pinata-upload.ts:43 | the digits in the default name denote the upload time, with no leading zero, and different times give different names |
| PinataUpload.Handle | api/pinata-upload.ts:19-123 | preflight 200, other methods 405, missing token 500, empty body 400; the body is pinned iff all pass; a name that does not decode gives 500 "URI malformed", a thrown pin call 500 with its message, a Pinata error or non-JSON reply 500 with its text; the reply carries the content id and gateway link iff pinning answered; the record is stored only with a string address header and a working database |
| PinataUpload.GatewayUrlAgreesWithClient | api/pinata-upload.ts:82-115 | the server's gateway link is the client's conversion of ipfs://cid |
| CertForm.Values | src/pages/Admin/AdminAddCertificate.jsx:177-193 | the seven required fields in checking order |
| CertForm.RequiredMessage | src/pages/Admin/AdminAddCertificate.jsx:177-193 | a required-field message is never empty |
| CertForm.BlankFlags | src/pages/Admin/AdminAddCertificate.jsx:177-193 | one flag per value, set exactly for the blank ones |
| CertForm.FirstSet | src/pages/Admin/AdminAddCertificate.jsx:177-193 | the first set flag from a position, none iff no flag is set there |
| CertForm.FirstBlankField | src/pages/Admin/AdminAddCertificate.jsx:177-193 | the first blank field, every earlier one non-blank; none iff all are filled |
| CertForm.ValidateStep0 | src/pages/Admin/AdminAddCertificate.jsx:177-193 | "" iff no field is blank after trimming, else the message for the first blank field (admin.jsx:152-168 is the same) |
| CertForm.EmptyFormNamesNama | src/pages/Admin/AdminAddCertificate.jsx:178-190 | the empty form fails on "Nama" |
| CertForm.GoNext | src/pages/Admin/AdminAddCertificate.jsx:196-206 | from step 0 an invalid form stays with its message; otherwise one step forward, at most 2, with the error cleared |
| CertForm.GoBack | src/pages/Admin/AdminAddCertificate.jsx:207-210 | one step back, never below 0 |
| CertForm.StepOneNeedsValidForm | src/pages/Admin/AdminAddCertificate.jsx:196-206 | step 1 is reached from step 0 iff the form is valid |
| CertForm.PdfCheckIgnoresCase | src/pages/Admin/AdminAddCertificate.jsx:31-36 | the PDF check gives the same answer for the lower-cased name and MIME type |
| CertForm.CheckPick | src/pages/Admin/AdminAddCertificate.jsx:134-162 | a file is kept iff it is a PDF of at most 2 MiB (line 30); nothing picked iff no file |
| CertForm.ShortHashIsHexOfFirstBytes | src/pages/Admin/AdminAddCertificate.jsx:121-130 | the 16-digit short digest is the hex of the first eight bytes |
| CertForm.HeaderText | src/pages/Admin/AdminAddCertificate.jsx:359 | a text header is trimmed; a missing one is "" |
| CertForm.CellAt | src/pages/Admin/AdminAddCertificate.jsx:360-366 | a missing cell reads as "" and never as undefined |
| CertForm.RowObjectLookup | src/pages/Admin/AdminAddCertificate.jsx:360-366 | each header holds the cell under its last occurrence |
| CertForm.RowObjectKeys | src/pages/Admin/AdminAddCertificate.jsx:360-366 | the row object's keys are exactly the headers |
| CertForm.RowObject | src/pages/Admin/AdminAddCertificate.jsx:360-366 | the header loop builds the row object |
| CertForm.Headers | src/pages/Admin/AdminAddCertificate.jsx:359 | one trimmed header per cell of the first row |
| CertForm.ImportSheet | src/pages/Admin/AdminAddCertificate.jsx:341-380 | a sheet with fewer than two rows is refused; otherwise one row object per data row, under the trimmed headers |
| CertForm.CoalesceAllFindsFirst | src/pages/Admin/AdminAddCertificate.jsx:433-441 | the `??` chain yields the first column holding a value, else "" |
| CertSaga.PreconditionError | src/pages/Admin/AdminAddCertificate.jsx:218-222 | no error iff the program is ready, a wallet is connected, the registry is not known to be missing, the wallet is admin and the admin address is known; otherwise the first failing check's message (admin.jsx:193-197 is the same) |
| CertSaga.UnknownRegistryDoesNotBlock | src/pages/Admin/AdminAddCertificate.jsx:220 | a registry flag that is still unknown does not block a submit |
| CertSaga.CertAddress | src/lib/program.ts:42-44 | the certificate address is the derivation over "cert" and the number, and fails exactly when the number's UTF-8 seed exceeds 32 bytes |
| CertSaga.CertAddressBySize | src/lib/program.ts:42-44 | an ASCII number of at most 32 characters always has an address; a number of more than 32 characters never has one |
| CertSaga.ErrorText | src/pages/Admin/AdminAddCertificate.jsx:290-296 | the message, else the text form, else a fixed text; never empty |
| CertSaga.MessageOrDefault | src/pages/Admin/admin.jsx:246 | the message, else a fixed text; never empty |
| CertSaga.PagesAgreeOnPlainErrors | src/pages/Admin/admin.jsx:246 | an error with a message shows that message on both pages |
| AddCertificate.ShortHex | src/pages/Admin/AdminAddCertificate.jsx:121-130 | the short digest is the first 16 hex digits |
| AddCertificate.ChecksPrecedeEveryCall | src/pages/Admin/AdminAddCertificate.jsx:218-233 | a failed admin check, a rejected attachment or a certificate number whose UTF-8 seed exceeds 32 bytes ends the flow with no call made; the last gives "Max seed length exceeded" |
| AddCertificate.LedgerWriteCarriesNoFile | src/pages/Admin/AdminAddCertificate.jsx:231-258 | the first call is the ledger write, with an empty URI and 32 zero bytes (line 237) |
| AddCertificate.NoUploadUnlessConfirmed | src/pages/Admin/AdminAddCertificate.jsx:263-279 | nothing is uploaded or saved unless the ledger write was confirmed and a non-empty file was chosen |
| AddCertificate.SuccessIffEveryCallSucceeded | src/pages/Admin/AdminAddCertificate.jsx:213-299 | success iff the checks pass, the ledger write is confirmed and any upload and save both succeed |
| AddCertificate.Submit | src/pages/Admin/AdminAddCertificate.jsx:213-283 | the calls made and the outcome are those of the submit flow, including the derivation that fails before any call for a seed over 32 bytes |
| AddCertificate.UploadThenSave | src/pages/Admin/AdminAddCertificate.jsx:263-279 | the upload and metadata save, awaited in turn, are those of the flow |
| AddCertificate.RejectedSaveShowsItsMessage | src/pages/Admin/AdminAddCertificate.jsx:270-295 | a save request rejected before any reply fails the flow with the rejection's message, after the write, the upload and the attempted save |
| AddCertificate.Page.constructor | src/pages/Admin/AdminAddCertificate.jsx:71-92 | the page starts at step 0 with an empty form, no file, no results |
| AddCertificate.Page.OnPickFile | src/pages/Admin/AdminAddCertificate.jsx:134-162 | an accepted PDF is kept with its short digest; anything else clears the file, and a rejection shows its message |
| AddCertificate.Page.GoNext | src/pages/Admin/AdminAddCertificate.jsx:196-206 | the step and error become those of the wizard's next step, and no other field changes |
| AddCertificate.Page.GoBack | src/pages/Admin/AdminAddCertificate.jsx:207-210 | the step becomes the wizard's previous step, the error is cleared, and no other field changes |
| AddCertificate.Page.HandleSubmit | src/pages/Admin/AdminAddCertificate.jsx:213-299 | the calls are those of the flow; the address, saved URI and gateway link, success text or error text follow its outcome; the submitting flag ends down |
| AddCertificate.Page.ShowResult | src/pages/Admin/AdminAddCertificate.jsx:280-298 | a success shows the address, the success text and step 2, replacing the file links only when a file was uploaded; a failure shows its message and keeps every earlier result |
| AddCertificate.Page.ResetAll | src/pages/Admin/AdminAddCertificate.jsx:318-336 | the form, file and results return to their initial values |
| AddCertificate.Page.ImportExcel | src/pages/Admin/AdminAddCertificate.jsx:341-380 | a sheet with fewer than two rows is refused; otherwise the rows are its row objects and no row is selected |
| AddCertificate.Page.UseRow | src/pages/Admin/AdminAddCertificate.jsx:430-471 | the row is selected and the form filled from it, the number from any of four column spellings |
| LegacyAdmin.FullHex | src/pages/Admin/admin.jsx:99-105 | the full digest is 64 lowercase hex digits that decode to the digest |
| LegacyAdmin.LegacyChecksPrecedeEveryCall | src/pages/Admin/admin.jsx:193-216 | no call is made iff an admin check fails, or there is no attachment and the number's seed exceeds 32 bytes; a failed check ends the flow with its message |
| LegacyAdmin.NoAttachmentWritesEmptyPointer | src/pages/Admin/admin.jsx:200-242 | without a non-empty attachment and with a derivable address the only call is the ledger write, with an empty URI and zero digest |
| LegacyAdmin.UploadPrecedesLedgerWrite | src/pages/Admin/admin.jsx:204-242 | with a non-empty attachment the upload comes first, and the ledger write (when the address is derivable) carries its URI and the file's digest |
| LegacyAdmin.LongNumberLeavesUploadBehind | src/pages/Admin/admin.jsx:204-216 | with an attachment and a number whose seed exceeds 32 bytes, the file is uploaded and then the flow fails with "Max seed length exceeded" and no ledger write |
| LegacyAdmin.UploadSurvivesRejectedWrite | src/pages/Admin/admin.jsx:204-242 | a rejected ledger write after a successful upload leaves the file pinned and the flow failed |
| LegacyAdmin.LegacySuccessIffEveryCallSucceeded | src/pages/Admin/admin.jsx:188-250 | success iff the checks pass, any upload succeeded and the ledger write was confirmed |
| LegacyAdmin.RowHandlersDisagree | src/pages/Admin/admin.jsx:382-420 | on a sheet whose number column is "Nomor Ijazah", a row click (which looks only at "Nomor Ijasah" and "nomor ijasah") leaves the number empty, while the row button fills it with the trimmed cell |
| LegacyAdmin.Submit | src/pages/Admin/admin.jsx:188-250 | the calls and outcome are those of the older submit flow, including the derivation that fails after the upload for a seed over 32 bytes |
| LegacyAdmin.Page.constructor | src/pages/Admin/admin.jsx:48-70 | the page starts at step 0 with an empty form, no file, no results |
| LegacyAdmin.Page.OnPickFile | src/pages/Admin/admin.jsx:114-137 | any picked file is kept with its full digest and, for an image, its preview; no file clears them |
| LegacyAdmin.Page.GoNext | src/pages/Admin/admin.jsx:171-181 | the step and error become those of the wizard's next step, and no other field changes |
| LegacyAdmin.Page.GoBack | src/pages/Admin/admin.jsx:182-185 | the step becomes the wizard's previous step, the error is cleared, and no other field changes |
| LegacyAdmin.Page.HandleSubmit | src/pages/Admin/admin.jsx:188-250 | the calls are those of the flow; the results or error text follow its outcome |
| LegacyAdmin.Page.ShowResult | src/pages/Admin/admin.jsx:240-249 | a success shows the address, both file links, the success text and step 2; a failure shows its message and keeps every earlier result |
| LegacyAdmin.Page.ResetAll | src/pages/Admin/admin.jsx:269-288 | every form, file and result field returns to its initial value |
| LegacyAdmin.Page.ImportExcel | src/pages/Admin/admin.jsx:293-332 | a sheet with fewer than two rows is refused; otherwise the rows are its row objects |
| LegacyAdmin.Page.ClickRow | src/pages/Admin/admin.jsx:382-394 | the row is selected and the form filled, the number from the row-click columns |
| LegacyAdmin.Page.UseRowButton | src/pages/Admin/admin.jsx:409-420 | the row is selected and the form filled, the number from the button's columns |
| SaveCertificate.SaveCertificateWithFile | src/lib/SaveCertificate.js:5-56 | the calls and outcome are those of the library flow, including the derivation that throws after the upload for a seed over 32 bytes |
| SaveCertificate.NoFileNoPointer | src/lib/SaveCertificate.js:13-55 | without a file the ledger write is the only call, with an empty URI and zero digest, and "" is returned as the URI |
| SaveCertificate.FileUploadedBeforeLedger | src/lib/SaveCertificate.js:16-23 | with a file (even an empty one) the upload is first; a thrown upload ends the flow; otherwise the write carries the URI and the digest |
| SaveCertificate.ReturnedUriIsLedgerUri | src/lib/SaveCertificate.js:30-55 | a value is returned iff the write is confirmed (and any upload succeeded), and it repeats the written address and URI |
| SaveCertificate.UploadSurvivesRejectedWrite | src/lib/SaveCertificate.js:16-53 | after an upload, a rejected write or an underivable address leaves the file pinned and throws the ledger's error or "Max seed length exceeded" |
| Dashboard.Short | src/pages/Admin/AdminDashboard.jsx:9-10 | "" stays "", a short key is kept, a long one keeps its head and tail around an ellipsis |
| Dashboard.ShortKeepsBothEnds | src/pages/Admin/AdminDashboard.jsx:9-10 | with the default lengths a long key keeps its first and last four characters |
| Dashboard.Ts | src/pages/Admin/AdminDashboard.jsx:12-17 | a dash for a missing or zero time, otherwise the instant in milliseconds |
| Dashboard.NormalizeCert | src/pages/Admin/AdminDashboard.jsx:19-39 | keys become text, camelCase fields win over snake_case ones when truthy, and the file fields start empty |
| Dashboard.SnakeOperatorKeyWinsAsText | src/pages/Admin/AdminDashboard.jsx:22-26 | with plain-text keys the snake_case operator key wins |
| Dashboard.LookupUrl | src/pages/Admin/AdminDashboard.jsx:62 | the lookup URL is the base without its trailing slashes, then "/api/certs/" and the address, and nothing else |
| Dashboard.LookupUrlReachesServerLookup | src/pages/Admin/AdminDashboard.jsx:61-67 | for a slash-free address, the path of the lookup URL is routed by the metadata server to its lookup, which reads back that address |
| Dashboard.FetchOffchain | src/pages/Admin/AdminDashboard.jsx:61-68 | a record is found iff the reply parsed and its ok flag is set |
| Dashboard.MergeMeta | src/pages/Admin/AdminDashboard.jsx:91-99 | no record keeps the row; a record sets the content id and file link |
| Dashboard.MergeAll | src/pages/Admin/AdminDashboard.jsx:87-103 | each row is merged with its own lookup |
| Dashboard.MergeKeepsLedgerFields | src/pages/Admin/AdminDashboard.jsx:93-98 | merging never changes a row's account or ledger fields |
| Dashboard.Insert | src/pages/Admin/AdminDashboard.jsx:85 | inserting adds exactly one element |
| Dashboard.SortByNomor | src/pages/Admin/AdminDashboard.jsx:85 | the sort keeps the length and the multiset of rows |
| Dashboard.SortIsOrderedPermutation | src/pages/Admin/AdminDashboard.jsx:85 | the rows come out ordered by certificate number and are a permutation of the input |
| Dashboard.TextOf | src/pages/Admin/AdminDashboard.jsx:185-189 | a truthy value as its string form, a falsy one as "" |
| Dashboard.EditKeepsCidUnlessNewFile | src/pages/Admin/AdminDashboard.jsx:169-195 | without a new file nothing is uploaded and the stored content id is saved again |
| Dashboard.EditSucceedsIffSaved | src/pages/Admin/AdminDashboard.jsx:163-205 | the edit succeeds iff any upload and the save both succeed |
| Dashboard.RejectedEditSaveAlertsItsMessage | src/pages/Admin/AdminDashboard.jsx:183-201 | a save request rejected before any reply alerts "Update failed: " followed by the rejection's message |
| Dashboard.AccountFilter | src/pages/Admin/AdminDashboard.jsx:74-78 | a filter iff "only mine", on the wallet's key at offset 8 |
| Dashboard.Normalized | src/pages/Admin/AdminDashboard.jsx:80-83 | one normalised row per listed account, in order |
| Dashboard.LoadedRowsAreSortedAccounts | src/pages/Admin/AdminDashboard.jsx:80-105 | the rows are a permutation of the listed accounts, each normalised and merged with its own lookup, in ascending order of certificate number (a missing number counting as "") |
| Dashboard.MergePreservesPermutation | src/pages/Admin/AdminDashboard.jsx:87-103 | each row's merge depends on that row alone, so merging two permutations of the same rows gives permutations of each other |
| Dashboard.RunEdit | src/pages/Admin/AdminDashboard.jsx:168-201 | the calls and alert are those of the edit flow |
| Dashboard.Page.constructor | src/pages/Admin/AdminDashboard.jsx:48-57 | the page starts with "only mine", no rows and no edit open |
| Dashboard.Page.Load | src/pages/Admin/AdminDashboard.jsx:70-111 | the requested filter follows the toggle; a listing gives the loaded rows and clears the error; a failure keeps the rows and shows its text; busy ends down |
| Dashboard.Page.OpenEditModal | src/pages/Admin/AdminDashboard.jsx:157-161 | the row becomes the edit target with no file chosen |
| Dashboard.Page.HandleSaveEdit | src/pages/Admin/AdminDashboard.jsx:163-205 | without a target nothing happens; otherwise the calls and alert of the edit flow, and the modal closes on success |
| DetailsCard.Wrap | src/components/CertificateDetailsCard.jsx:15 | a byte value keeps its value; others are taken modulo 256 |
| DetailsCard.WrapAll | src/components/CertificateDetailsCard.jsx:15-17 | each element is wrapped, in order |
| DetailsCard.BytesOf | src/components/CertificateDetailsCard.jsx:11-18 | the bytes of each accepted shape, none for other values |
| DetailsCard.ToHexIsTwoDigitsPerByte | src/components/CertificateDetailsCard.jsx:9-23 | two lowercase hex digits per byte that decode back to the bytes; "" for a value that is not bytes |
| DetailsCard.WrapIsCongruence | src/components/CertificateDetailsCard.jsx:15 | two numbers become the same byte iff they are congruent modulo 256 |
| DetailsCard.SameHexIffCongruent | src/components/CertificateDetailsCard.jsx:9-23 | two plain arrays of numbers show the same hex text iff they have the same length and agree position by position modulo 256 |
| DetailsCard.ToBase58 | src/components/CertificateDetailsCard.jsx:25-32 | "" for a falsy value, a string as it is, a key as its text |
| DetailsCard.IssuedSeconds | src/components/CertificateDetailsCard.jsx:4-6 | the seconds of a big or plain number, 0 when missing |
| DetailsCard.IssuedStr | src/components/CertificateDetailsCard.jsx:7 | "-" iff zero seconds, otherwise the instant in milliseconds within a date's range, else "Invalid Date" |
| DetailsCard.EitherSpelling | src/components/CertificateDetailsCard.jsx:43-161 | the first of the two spellings that is neither undefined nor null, else the fallback |
| DetailsCard.CardView | src/components/CertificateDetailsCard.jsx:43-225 | nama, nim and universitas fall back to "—" when falsy, the three two-spelling fields to "—" only when both are null or undefined, the operator name to "-"; the link shows iff the file URI is truthy; the digest only beside it and only for a non-empty plain array; the explorer link iff an address is given |
| DetailsCard.ByteArrayDigestIsHidden | src/components/CertificateDetailsCard.jsx:207 | a digest held as a byte array is never shown |
| DetailsCard.EmptyOperatorNameIsKept | src/components/CertificateDetailsCard.jsx:43 | an empty operator name is shown as "", not the fallback |
| DetailsCard.MissingDataShowsFallbacks | src/components/CertificateDetailsCard.jsx:4-116 | without data the card shows every fallback, no attachment and no digest, and the explorer link iff an address is given |
| VerifyCertificate.EnsureHttpsOrLocal | src/components/VerifyCertificate.jsx:65-69 | the camera may be used iff there is no window, the host is local, or the page is https |
| VerifyCertificate.PlainHttpOnlyOnLocalHost | src/components/VerifyCertificate.jsx:65-69 | plain http is refused for every host but the two local names |
| VerifyCertificate.FirstBack | src/components/VerifyCertificate.jsx:73 | the first back-facing device; none iff no device looks back |
| VerifyCertificate.BestBackCameraId | src/components/VerifyCertificate.jsx:71-75 | "" or the id of a listed device |
| VerifyCertificate.FirstBackFacingWins | src/components/VerifyCertificate.jsx:71-75 | the first back-facing device wins |
| VerifyCertificate.NoBackFacingTakesLast | src/components/VerifyCertificate.jsx:71-75 | without a back-facing device the last one is taken, "" for none |
| VerifyCertificate.StoredMatch | src/components/VerifyCertificate.jsx:116 | the stored id iff some device has it |
| VerifyCertificate.InitialCamera | src/components/VerifyCertificate.jsx:114-120 | "" or the id of a listed device; the order of preference is stated by the four lemmas below |
| VerifyCertificate.UnmatchedStoredPrefersBackCamera | src/components/VerifyCertificate.jsx:114-120 | with no usable stored camera, the first back-facing device with an id is chosen, whatever follows it |
| VerifyCertificate.UnmatchedStoredWithoutBackCamera | src/components/VerifyCertificate.jsx:114-120 | with no usable stored camera and no back-facing device, the last device's id, or the first's when that id is empty, or "" for no devices |
| VerifyCertificate.StoredCameraIsChosenAgain | src/components/VerifyCertificate.jsx:114-120 | a stored camera that is still listed is chosen again |
| VerifyCertificate.UnknownStoredCameraIsIgnored | src/components/VerifyCertificate.jsx:114-120 | a stored camera that is gone changes nothing |
| VerifyCertificate.SomeCameraIsChosen | src/components/VerifyCertificate.jsx:114-120 | when every device has an id, some camera is chosen |
| VerifyCertificate.FindIndex | src/components/VerifyCertificate.jsx:319 | the first index holding the id, -1 iff none |
| VerifyCertificate.FlipAdvances | src/components/VerifyCertificate.jsx:317-322 | with distinct ids a flip moves to the next camera, wrapping at the end |
| VerifyCertificate.FlipFromUnknownTakesFirst | src/components/VerifyCertificate.jsx:317-322 | from an unlisted camera a flip selects the first one |
| VerifyCertificate.FlipsCycle | src/components/VerifyCertificate.jsx:317-322 | k flips visit the cameras in list order |
| VerifyCertificate.FullTurnReturns | src/components/VerifyCertificate.jsx:317-322 | as many flips as cameras return to the start |
| VerifyCertificate.LookupFoundIffKeyAndAccount | src/components/VerifyCertificate.jsx:77-93 | the account is shown iff the trimmed text is a key and its account exists; otherwise an error and no data (the same lookup as lines 283-302) |
| VerifyCertificate.LookupIgnoresSurroundingSpace | src/components/VerifyCertificate.jsx:83 | whitespace around the payload does not change the lookup |
| VerifyCertificate.ImageShowsDataOrError | src/components/VerifyCertificate.jsx:241-255 | each outcome of the image route shows data or an error, never both |
| VerifyCertificate.Page.constructor | src/components/VerifyCertificate.jsx:30-40 | the page starts in camera mode with no result and no camera |
| VerifyCertificate.Page.HandleDecodedText | src/components/VerifyCertificate.jsx:77-93 | the page shows the lookup of the text, and busy ends down |
| VerifyCertificate.Page.OnScanSuccess | src/components/VerifyCertificate.jsx:163-170 | the scan stops, then the page shows the lookup of the text |
| VerifyCertificate.Page.VerifyManual | src/components/VerifyCertificate.jsx:283-302 | the page shows the lookup of the typed address, "" when the field is absent |
| VerifyCertificate.Page.ScanImage | src/components/VerifyCertificate.jsx:221-259 | the page shows what the image route yields |
| VerifyCertificate.Page.ChooseFile | src/components/VerifyCertificate.jsx:261-279 | an image is scanned; another file shows the rejection; no file does nothing |
| VerifyCertificate.Page.OnFileInputChange | src/components/VerifyCertificate.jsx:261-269 | the file route for a picked file |
| VerifyCertificate.Page.OnDrop | src/components/VerifyCertificate.jsx:270-279 | the file route for a dropped file |
| VerifyCertificate.Page.ClearResult | src/components/VerifyCertificate.jsx:310-314 | error, data and address are cleared |
| VerifyCertificate.Page.EnumerateCameras | src/components/VerifyCertificate.jsx:96-130 | outside camera mode nothing changes; otherwise the result is cleared; an insecure page and a failed enumeration each show their error; a listing sets the cameras and the initial pick |
| VerifyCertificate.Page.SelectMode | src/components/VerifyCertificate.jsx:341-361 | the mode is set, and a change into camera mode runs the camera effect |
| VerifyCertificate.Page.StartCamera | src/components/VerifyCertificate.jsx:133-195 | with no camera there is only the notice; otherwise the choice is stored and the running flag follows the start |
| VerifyCertificate.Page.RestartScan | src/components/VerifyCertificate.jsx:315 | the start effect runs again |
| VerifyCertificate.Page.StopScan | src/components/VerifyCertificate.jsx:414-418 | the scanner is no longer running |
| VerifyCertificate.Page.FlipCamera | src/components/VerifyCertificate.jsx:317-322 | the selected camera becomes the next in the list |

## Left out

- Network, timers and browser APIs are not executed. Each becomes a parameter or an outcome datatype: RPC probes, Pinata and Mongo replies, ledger transactions, `fetch` (answered or rejected), `FileReader`, `setTimeout`, `window.location.reload`, `Date.now`.
- Concurrency: each async handler is modelled as one run that nothing interleaves with. The admin hook's in-flight guard is modelled by splitting `reload` at its await (`BeginReload` / `FinishReload`).
- Cancelled flags of effects, and the html5-qrcode start queue (`runSerial`): their interleavings are not modelled. The three fallback start attempts of the camera become one `started` input.
- html5-qrcode internals, QR decoding and QR rendering: the decoded text and the image scan result are inputs.
- The download, clipboard and copy buttons (`copyPda`, `copyAddr`) and the address preview (`pdaPreview`): pure presentation.
- The onChange handlers of the individual form inputs: each only assigns one field.
- The clock preview (`nowPreview`), the camera select's onChange and `clearFilePreview`: each only assigns one field.
- `getCachedConnection` and `window.__RPC__`: the model keeps the connection cache as the `Connections` class only.
- Spreadsheet parsing (XLSX): the parsed sheet is the input, and numeric cells are read as text.
- CertForm.Headers: a hole in a sparse header row is read as an undefined cell, giving a "" key, whereas `map` keeps the hole and `forEach` skips it, so the source makes no key for it.
- `localeCompare` is modelled as lexicographic order by code point. Locale collation is not modelled.
- Dashboard.SortByNomor: an insertion sort on values stands in for `Array.prototype.sort`, whose algorithm and stability are not modelled. The reload after a successful edit is returned as a flag.
- `toLocaleString` output, JSON serialisation details and `decodeURIComponent`: the rendered instant is kept as milliseconds, JSON as values, and decoding is a parameter.
- Floating point: numbers are integers; NaN and fractional values are not modelled.
- DetailsCard.IssuedStr: a `BN` of 2^53 seconds or more makes `toNumber()` throw, so the card fails to render (src/components/CertificateDetailsCard.jsx:4-6); the model shows "Invalid Date" for such a value, which lies beyond a date's range.
- `Uint8Array.from` on values that are not arrays is not modelled.
- Hashing failures (the catch paths around `crypto.subtle.digest`) are not modelled, and neither is the unused `bump` argument.
- The Mongo `_id`, connection reuse between invocations, and CORS headers other than Access-Control-Allow-Origin.
- PinataUpload.Handle: a repeated `x-file-name` header is taken as absent, and a Pinata reply without a content id is not modelled.
- VerifyCertificate.Page.ChooseFile: on a rejected file, the previous result stays beside the error message; this is the source's behaviour.
- A camera device without a label is read as "".
- VerifyCertificate.Page.SelectMode: a mode change does not re-run the start effect here. In the source `mode` is one of that effect's dependencies (src/components/VerifyCertificate.jsx:208), so leaving camera mode also runs its cleanup, which sets `isRunning` to false (lines 197-206), and runs it again, which sets `error` to "" or to "No camera Selected." (lines 134-138). The model keeps `error` unchanged and leaves `isRunning` out of this step.
- Lower: only ASCII capitals are lowered. JavaScript's `toLowerCase` also maps other letters, so a label such as "BAC\u212A" (ending in KELVIN SIGN) counts as back-facing at src/components/VerifyCertificate.jsx:71-75, and so does a PDF name written with such letters. The model does not capture these.
- JsVal has no numbers or booleans: a JSON body whose `nomor_ijazah` is `123` or `0` cannot be expressed, so the truthiness and `String()` of such fields are not modelled.
- A change of `reload`'s identity re-runs the mount effect of the admin hook (src/hooks/useAdmin.ts:217-219): the model runs `reload` only when one is asked for, with the registry flag it captured at its start.
- The "unable to find a viable program address" failure of `findProgramAddressSync` is not modelled: the derivation only fails for a seed over 32 bytes.
