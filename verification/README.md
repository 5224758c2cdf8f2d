# Edgerouter, modelled and proved

Edgerouter is a reverse proxy. Its hardest part, "turbocharger", serves immutable sites: a deployment
stores every file and then a manifest under the digest of their contents; the proxy resolves a manifest
ID to a table of files and serves them through two disk caches, gzipped and uncompressed, with many
requests running at once. This project models that part and the code around it, and proves what it is for:

- **Serving** (`World.dfy`, `Provenance.dfy`, `Downloads.dfy`). One transition system contains any number of
  deployments, any number of concurrent requests, the RAM cache of manifests and the file downloads with
  their locks, both disk caches, and restarts that keep only the disk. Every full answer for a published
  manifest decodes to the bytes deployed for the requested path (or for the 404 page); every other full answer
  is for the ID of a single stored file that decodes as a manifest, and carries the content which that
  manifest names; a manifest ID and a path mean the same content for ever; a 304 is only sent to a client whose
  copy is right, whatever manifest that copy came from; a site appears all at once; no content is downloaded
  twice at the same time.
- **Answers and progress** (`Answers.dfy`, `Faultless.dfy`, `Cached.dfy`, `Progress.dfy`). Of the same system, over
  all runs: every 500 and every missing answer is traced to a failure of that very request, or to a failed download
  of its content; where nothing fails, nobody gets either; what is cached is answered without the origin, gzipped
  copies as they are to clients that take gzip; and requests come to a standstill only behind downloads that
  hang.
- **Locks** (`MutexMap.dfy`, `Resolver.dfy`, `Hydration.dfy`). All interleavings of the named locks, of
  manifest resolution and of file downloads: mutual exclusion, no lost wake-up, loads never overlap, at most
  one load of a manifest succeeds per process, no deadlock in manifest resolution, and none among downloads but
  behind one that hangs. Inside every run of the whole system are runs of these machines, so what is proved of
  them holds there.
- **Downloads that hang** (`Filling.dfy`, `Hanging.dfy`). A compressible file gets into its cache through a pipe
  between two goroutines. For all their schedules, when the download returns and when it never does, as an
  if-and-only-if; and what a download that never returns means for the requests around it.
- **Deployment** (`Deployment.dfy`, `Deploying.dfy`). Three workers over an unbuffered channel: every run
  ends, nothing is lost or duplicated, and the manifest does not depend on the schedule, exactly if no path
  comes with two contents.
- **One request at a time** (`Handler.dfy`, `Sequential.dfy`, `Stores.dfy`). The handler as a class over its
  stores, each access to which may fail. While the disk caches work, RAM and restarts cannot be observed, and
  every call returns; a content is downloaded at most once in the lifetime of the disk; what was served once is
  served for ever, with or without the origin. In general: exactly which calls never return, and which return
  without an answer.
- **Discovery middleware** (`Middleware.dfy`, `PingBound.dfy`, `Turbocharged.dfy`). The bound on pings, "1 request
  per 5 seconds", as a theorem over all interleavings with time, with runs that show it to be the least; which
  requests are served from the manifest and which reach the origin; that what was advertised comes into use, and a
  failure, and nothing else, switches it off, by steps that nothing can block.
- **Identifiers** (`ObjectIDs.dfy`). The base64url text of an object ID (sections 3.5 and 5 of RFC 4648),
  ETags and the `turbocharger` header: alphabet and bits, round trips, exactly which texts are accepted, injectivity.
- **Routing and configuration** (`Routing.dfy`, `MostSpecific.dfy`, `HostRegexp.dfy`, `Discovery.dfy`,
  `Backends.dfy`). The mount table and its lookup against what the configuration says, when the most specific
  rule wins and when the order of the configuration matters (both as if-and-only-if), hostname patterns, the
  event-sourced list of applications, the cache of backends.

Concurrent code is modelled as transition systems whose steps are the points where goroutines can be
interleaved; theorems quantify over every run. Where the source updates objects in place and no interleaving
is at issue, the model has classes with methods, proved against specification functions about which the
theorems are stated. The steps of a `MutexMap` call run alone are proved to do what the methods of the class
do.

SHA-256, gzip and the JSON form of manifests are parameters (`Content.Codecs`). Gzip and JSON are assumed to
be undone by their inverses. Nothing is assumed of the hash: where a theorem needs it, it asks that the byte
strings hashed *in this run* have different digests (`NoCollision`), which is satisfiable, while injectivity
on all byte strings is not. Stores take an object in one atomic step. A failing insertion leaves
nothing in a cache of files, and may or may not have written where the store can be another.

What the proofs show about the code and its comments:

- The limit of one ping per five seconds (middleware.go:181) holds per *initial attachment*, and requests that
  race to attach first can each start a chain of pings. With m attachments the least bound for a window of T ms
  is m * (T / 5000 + 1), reached for every m and T (`PingBound.BoundIsReached`, `PingBound.PingRateExact`); so
  the documented rate is kept by all runs exactly while m is at most 1 (`PingBound.OnePerPeriodIff`). No later
  request can add to m (`Middleware.OnlyRacersAttach`).
- Mounts are sorted by the length of the raw prefix although trailing slashes are ignored in matching. With
  more than one trailing slash a less specific mount can win (`MostSpecific.UntidyCanShadow`). For every
  configuration, the most specific one wins exactly if whatever serves more paths is spelled shorter
  (`MostSpecific.LongestWinsIff`).
- The unstable sort leaves mounts with prefixes of equal length in any order. That shows exactly if two of them
  are in contest for a path: both are for it, and nothing longer is (`MostSpecific.SameWinnerIff`). These are
  mounts with the same prefix, but also "/a//" and "/a/b" (`MostSpecific.UntidyContest`). With one trailing slash at
  most, and no two mounts for the same place but for that slash, there is none
  (`MostSpecific.TidyAndDistinctUncontested`).
- "The same file set gives the same manifest" (deployment.go:127) needs that no path is listed with two
  different contents; that is also sufficient (`Deployment.DeterminedIff`).
- Stripping takes off the prefix and nothing else exactly if the prefix has no trailing slash, or has one, which
  the path has too, but not twice (`MostSpecific.StripGivesBackIff`). Otherwise the slice is out of range, or
  characters of the path are lost: with the prefix "/a//" a request for "/a/bcd" reaches the application as
  "/cd" (`MostSpecific.UntidyStripLoses`).
- The header comment on hostname patterns (hostregexp.go:10) shows dots unescaped; the code, like its test,
  escapes them outside placeholders (`HostRegexp.WrittenIsMeant`).
- A download of a compressible file that is already in the gzipped cache never returns and keeps its lock: the
  insertion does not read, so the compressor waits for ever (manifesthandler.go:261-288, store-localfs.go:35-37).
  No fault is needed for that. Two requests that both miss the caches will do, if the second gets the lock after
  the first gave it back, which the comment at manifesthandler.go:224-225 calls not dangerous
  (`Hanging.TwoRequestsHang`). The same happens if the check for the object fails, if the write stops before all is
  read, and if the origin breaks off, and in no other case (`Hanging.DownloadHangsIff`, which `Pipe.ReturnsIff`
  shows to hold of every schedule of the two goroutines). Requests that need the same content and found it in no
  cache then wait for ever, until the process is restarted (`Hanging.HungUntilRestart`); nothing else can bring the
  downloads to a standstill (`Hydration.NobodyMovesIff`).
- A call that fails after the manifest was resolved can return without having written anything; both callers only
  log the error, and net/http then sends status 200 with an empty body. As long as the caches work, that is exactly
  when the file is not cached, no call hangs on it, and the origin cannot be reached or has not got it
  (`Sequential.NoReplyIff`; an input is `Sequential.EmptyPage`). With any number of requests at once, it takes a
  failure of that very request, or an earlier one of the same content's download (`Answers.NoReplyBlame`); without
  failures it does not happen (`Faultless.FaultlessIsAnswered`). The model has the answer `NoReply` for it
  (`Serving.Sent` is what the client gets). A failed manifest lookup is answered with 500.
- `UnmarshalJSON` cuts decoded IDs longer than 32 bytes, as its sibling's comment warns (`ObjectIDs.UnmarshalCuts`,
  `ObjectIDs.ThirtyThreeBytesAreCut`); what it accepts is exact precisely at 32 bytes (`ObjectIDs.UnmarshalExactIff`),
  and `FromString` accepts no longer text (`ObjectIDs.AcceptedTexts`).
- A cached file whose bytes decode as a manifest can be asked for as one, by its content ID. That is the only
  source of bodies besides published manifests (`Provenance.EveryBodyAccounted`).

## Model

| member | source | states |
|---|---|---|
| Base64Url.DecodeEncode | pkg/turbocharger/types.go:38-40 | decoding undoes encoding for byte strings of every length |
| Base64Url.EncodeDecode | pkg/turbocharger/types.go:67-70 | re-encoding what any accepted text decodes to gives it back without its line breaks, up to the unused bits of the last digit, and two texts decode alike exactly if they agree up to those |
| Base64Url.EncodedGroup | pkg/turbocharger/types.go:38-40 | the text of every three octets is the four digits, in the alphabet of section 5 of RFC 4648, that make up the same 24-bit number, highest first |
| Base64Url.EncodedRest | pkg/turbocharger/types.go:38-40 | one or two last octets become two or three such digits, filled up with zero bits and not padded |
| ObjectIDs.TextShape | pkg/turbocharger/types.go:38-40 | the text of an ID has 43 characters of the URL-safe alphabet, without padding |
| ObjectIDs.TextInjective | pkg/turbocharger/types.go:38-40 | different IDs have different texts |
| ObjectIDs.UnmarshalMarshal | pkg/turbocharger/types.go:57-77 | IDs survive the trip through JSON and through their text |
| ObjectIDs.UnmarshalCuts | pkg/turbocharger/types.go:61-77 | reading the text of any number of bytes as an ID: fewer than 32 are an error, of more the first 32 are taken |
| ObjectIDs.UnmarshalExactIff | pkg/turbocharger/types.go:61-77 | a JSON literal is accepted exactly from 32 bytes on, and the ID read is all that it says if and only if these are 32 |
| ObjectIDs.ThirtyThreeBytesAreCut | pkg/turbocharger/types.go:61-77 | for every ID there is an accepted literal of 33 bytes that is read as it |
| ObjectIDs.AcceptedTexts | pkg/turbocharger/types.go:79-91 | exactly the texts of 43 base64url digits are accepted as IDs, although the text is spliced into a JSON literal with escapes and skipped line breaks |
| ObjectIDs.PrintParsed | pkg/turbocharger/types.go:79-91 | printing a parsed ID gives the first 42 characters back and the last up to its 2 unused bits; two texts name one object exactly if they differ in nothing else |
| ObjectIDs.ETagsNeverCollide | pkg/turbocharger/types.go:42-49 | an ETag identifies one object in one encoding |
| ObjectIDs.HeaderRoundTrip | pkg/turbocharger/middleware.go:238-255 | parsing a rendered header gives the subtree back if and only if its prefix has no space |
| MutexMaps.MutexMap.TryLockInternal | pkg/syncutil/mutexmap.go:54-72 | takes a free key with a new open channel, or returns the channel of the holder and changes nothing |
| MutexMaps.MutexMap.TryLock | pkg/syncutil/mutexmap.go:43-50 | succeeds exactly if the key is free |
| MutexMaps.MutexMap.Unlock | pkg/syncutil/mutexmap.go:65-71 | frees its own key only and closes its own channel, which was open |
| MutexMaps.MutexMap.LockThenUnlock | pkg/syncutil/mutexmap.go:43-72 | the callback undoes the lock and leaves all other keys alone |
| MutexMaps.TryLockAlone | pkg/syncutil/mutexmap.go:54-63 | the interleavable steps of TryLock, run alone, have the effect of the method |
| MutexMaps.UnlockAlone | pkg/syncutil/mutexmap.go:65-71 | likewise for the unlock callback |
| MutexMaps.RunKeepsInv | pkg/syncutil/mutexmap.go:27-72 | the invariant of the lock map in every reachable state |
| MutexMaps.MutualExclusion | pkg/syncutil/mutexmap.go:8-14 | at most one holder per key, in every state of every interleaving |
| MutexMaps.LockedIffHeld | pkg/syncutil/mutexmap.go:58-71 | a key is in the map exactly while someone holds it |
| MutexMaps.ClosedOnceByItsHolder | pkg/syncutil/mutexmap.go:65-71 | no channel is closed twice, and only the thread that made it closes it |
| MutexMaps.NoLostWakeup | pkg/syncutil/mutexmap.go:27-38 | who waits, waits for a live lock, can go on, or is about to be woken by a step that cannot block |
| MutexMaps.StuckOnlyOnHolders | pkg/syncutil/mutexmap.go:27-72 | if no call can move, every call is waiting for a lock whose callback has not been called |
| Resolver.RRunKeepsInv | pkg/turbocharger/manifesthandler.go:307-386 | the invariant of manifest resolution in every reachable state |
| Resolver.LoadsNeverOverlap | pkg/turbocharger/manifesthandler.go:309-337 | two threads never load the same manifest at once |
| Resolver.AtMostOneSuccess | pkg/turbocharger/manifesthandler.go:307-386 | at most one load of a manifest ever succeeds, and what is in RAM came from one |
| Resolver.LoadedForGood | pkg/turbocharger/manifesthandler.go:378-386 | what is in RAM stays unchanged, and after a success no further load of that manifest starts |
| Resolver.Agreement | pkg/turbocharger/manifesthandler.go:307-386 | all threads that ever get a manifest for an ID get the same one; that no others go without is in `Resolver.FailsOnlyByOwnLoad` |
| Resolver.FailsOnlyByOwnLoad | pkg/turbocharger/manifesthandler.go:330-335 | a resolution fails only after a load of its own failed, with nothing tried since: who waited for the load of another goes round again |
| Resolver.LoadedIsFound | pkg/turbocharger/manifesthandler.go:307-328 | whoever asks for a manifest after some load has brought it gets it |
| Resolver.DeadlockFree | pkg/turbocharger/manifesthandler.go:309-337 | while any resolution is unfinished, some thread inside can move |
| Hydration.HRunKeepsInv | pkg/turbocharger/manifesthandler.go:239-247 | the invariant of file downloads under their named lock, in every reachable state |
| Hydration.DownloadsNeverOverlap | pkg/turbocharger/manifesthandler.go:199-201 | two threads never download one content at once, downloads that hang included |
| Hydration.WaitersComeAfter | pkg/turbocharger/manifesthandler.go:239-245 | who was not first goes on only after the download it lost to has ended, for good |
| Hydration.NobodyMovesIff | pkg/turbocharger/manifesthandler.go:239-289 | no thread inside can move if and only if every thread inside hangs, or waits for the lock of one that hangs on the same content |
| Hydration.BlockedForEver | pkg/turbocharger/manifesthandler.go:239-289 | who hangs, or waits for one that hangs, does so in every later state |
| Hydration.NobodyGetsPast | pkg/turbocharger/manifesthandler.go:239-245 | once a download hangs, who comes for its content neither downloads it nor gets to the end of waiting |
| Hydration.Standstill | pkg/turbocharger/manifesthandler.go:239-289 | a run of ten steps after which one thread hangs, the other waits for it, and nobody can move |
| Pipe.ReturnsIff | pkg/turbocharger/manifesthandler.go:260-288 | every schedule of compressor and insertion comes to a standstill, and the download has returned by then if and only if all that is written is read and the end that is waited for comes |
| Filling.HangsAsThePipeDoes | pkg/turbocharger/manifesthandler.go:256-288 | the outcome used everywhere else is that of the two goroutines, for every schedule |
| Content.Inserted | pkg/turbocharger/store-localfs.go:29-43 | an insertion touches its own key only, and leaves there the old or the new content |
| Stores.FileStore.InsertObject | pkg/turbocharger/store-localfs.go:29-43 | inserts if absent, leaves an existing object alone, and reports an error without effect if the check fails, or the write of an object that is not there |
| Stores.InMemoryStore.InsertObject | pkg/turbocharger/store-inmemory.go:51-65 | the last insertion wins |
| Stores.StoresAgreeIff | pkg/turbocharger/store-localfs.go:29-43 | keeping and overwriting give the same store for every sequence of contents put under their digests, if and only if no two of them collide |
| Deployment.StepKeepsDInv | pkg/turbocharger/deployment.go:59-121 | at every step, whatever has failed, every item read is in flight exactly once, listed exactly once, or given up exactly once |
| Deployment.EveryRunEnds | pkg/syncutil/concurrently.go:11-33 | runs have bounded length whatever fails, and one that cannot continue has all goroutines returned and a definite outcome |
| Deployment.DeployedMeansAll | pkg/turbocharger/deployment.go:59-146 | success means that the manifest is the list of exactly the submitted files, in ascending order of their paths |
| Strings.LessIff | pkg/turbocharger/deployment.go:129 | the order of paths: the first difference decides, and a proper prefix comes first |
| Deployment.EndsAccounted | pkg/turbocharger/deployment.go:59-121 | however a run ends, the files read are exactly those listed and those given up, and if any was given up or left unread, the deployment has failed |
| Deployment.SucceedsIff | pkg/turbocharger/deployment.go:43-146 | a deployment that has come to its end was successful if and only if there was something to deploy and no reading or storing failed |
| Deployment.ScheduleIndependent | pkg/turbocharger/deployment.go:127-136 | two successful runs over the same files in any order and schedule give the same manifest and ID, if no path has two contents |
| Deployment.DeterminedIff | pkg/turbocharger/deployment.go:127-129 | once the workers have returned, exactly one manifest is possible if and only if no path came with two contents |
| Deployment.StepKeepsOInv | pkg/turbocharger/deployment.go:75-140 | every step of a deployment keeps the stores sound: objects under their digests, manifests complete |
| Deployment.PublishedIsComplete | pkg/turbocharger/deployment.go:138-140 | a manifest in the store lists only contents that are stored, under their own digests |
| Deploying.DeploymentManager.StoreAndAppend | pkg/turbocharger/deployment.go:62-88 | a worker's item is stored under its digest and appended to the shared manifest, or neither |
| Deploying.DeploymentManager.StoreItems | pkg/turbocharger/deployment.go:62-121 | the items are stored up to the first failure; without one the manifest lists all of them |
| Deploying.StoreAllStores | pkg/turbocharger/deployment.go:70-88 | success means that all contents are stored; whatever fails, only submitted contents are added, and nothing stored before is changed |
| Deploying.DeploymentManager.Deploy | pkg/turbocharger/deployment.go:43-146 | publishes the sorted manifest under its digest after all contents, or reports which of the three steps failed, with the stores as they are then; one store may serve as both |
| Deploying.AnyRunGivesThis | pkg/turbocharger/deployment.go:61-146 | every successful concurrent run ends in the manifest and ID that handling the files in turn gives |
| Serving.OptimizedHasAll | pkg/turbocharger/manifesthandler.go:393-400 | the lookup table has every path of the manifest, each with an entry for that path |
| Serving.LastLineWins | pkg/turbocharger/manifesthandler.go:393-400 | a path listed more than once stands for its last line |
| Serving.CompressesWellIff | pkg/turbocharger/manifesthandler.go:402-410 | the files kept gzipped are those whose name ends in one of the eight extensions, each written out |
| Serving.SupportsGzipIff | pkg/turbocharger/manifesthandler.go:412-415 | a client gets gzip exactly if its Accept-Encoding has "gzip" somewhere |
| Serving.FromGzipIff | pkg/turbocharger/manifesthandler.go:136-166 | from the gzipped copy, exactly a client whose header has "gzip" somewhere gets that copy as it is, under the gzip ETag; any other gets the content |
| World.WRunKeepsInv | pkg/turbocharger/manifesthandler.go:77-391 | in every reachable state of the whole system the caches, RAM, tasks and answers are genuine; in particular 304 is answered exactly to those whose ETag matches. Which requests get an error or no answer is in `Answers.ServerErrorBlame` and `Answers.NoReplyBlame` |
| World.ResolverRunInside | pkg/turbocharger/manifesthandler.go:78-84 | inside every run of the system since the last restart is a run of the resolver, so its theorems apply |
| World.ChosenWasDeployed | pkg/turbocharger/manifesthandler.go:86-101 | the chosen file is a deployed one for the path, else for /404.html, with status 200 or 404 to match, and exists exactly if one was deployed |
| World.BodyIsDeployed | pkg/turbocharger/manifesthandler.go:77-195 | every full answer for a published manifest decodes to exactly the bytes deployed for the path or the 404 page, with the right status |
| Provenance.EveryBodyAccounted | pkg/turbocharger/manifesthandler.go:77-195 | every full answer ever sent decodes to what some release of the requested ID was given for the path or its 404 page, or else the requested ID is that of a stored file which decodes to the table served from, and the body is the content with the digest this table gives |
| World.DeployedIsServed | pkg/turbocharger/deployment.go:138-146 | what a deployment was given and reported under an ID is what every later full answer for that ID carries |
| World.SameContentForEver | pkg/turbocharger/manifesthandler.go:77-123 | any two answers for one manifest ID and path have the same status and content, across restarts and deployments |
| World.NotModifiedIsSound | pkg/turbocharger/manifesthandler.go:103-108 | a client that gets 304 for an ETag it once received holds what the manifest now maps its request to |
| World.RevalidationWorks | pkg/turbocharger/manifesthandler.go:103-108 | a client that sends back the ETag of a full answer, in whichever encoding, gets 304 (or an error, or no answer) if its request is now mapped to the same content |
| World.SitesAppearAtOnce | pkg/turbocharger/deployment.go:119-140 | at every step of any number of deployments, all that a stored manifest lists is stored |
| Progress.StandstillIff | pkg/turbocharger/manifesthandler.go:77-391 | in every reachable state of the whole system, no request can take a step if and only if each of them hangs in a download or waits for one that does |
| Answers.ServerErrorBlame | pkg/turbocharger/manifesthandler.go:77-84 | over all runs, 500 is answered only to a request whose own load of the manifest failed, and that has tried nothing since |
| Answers.NoReplyBlame | pkg/turbocharger/manifesthandler.go:219-304 | over all runs, a request goes without an answer only if its own download failed, or its second look into the caches could not read what is there, or a download of its content had failed before in the same process |
| Faultless.FaultlessIsAnswered | pkg/turbocharger/manifesthandler.go:77-123 | if what is asked for is published and nothing fails that requests depend on, every answer ever given is a page, 304 or 404, whatever is interleaved |
| Cached.FullIsMadeOf | pkg/turbocharger/manifesthandler.go:136-166 | every full answer ever sent was made from what a cache held at that moment: gzipped exactly if it came from the gzipped cache and the header has "gzip" somewhere, and then as it is stored |
| Cached.GzipComesFirst | pkg/turbocharger/manifesthandler.go:169-189 | where nothing fails, a request looks into the uncompressed cache only after the gzipped one did not have its file |
| Cached.LoadedStaysCached | pkg/turbocharger/manifesthandler.go:365-373 | a manifest loaded from the origin is in the disk cache from then on, across restarts, if the insertion worked |
| Cached.FilledStaysCached | pkg/turbocharger/manifesthandler.go:256-304 | and so is a file whose download succeeded |
| Cached.CachedIsAnswered | pkg/turbocharger/manifesthandler.go:342-349 | a request whose manifest and file are cached when it comes gets the page or 304, whatever happens to the origin and whoever else is loading, as long as it can read the caches itself |
| Downloads.HydrationRunInside | pkg/turbocharger/manifesthandler.go:239-247 | inside every run of the system since the last restart is a run of the file downloads, so their theorems apply |
| Downloads.OneDownloadPerContent | pkg/turbocharger/manifesthandler.go:199-201 | in the whole system, two requests never get one content from the origin at the same time |
| Hanging.DownloadHangsIff | pkg/turbocharger/manifesthandler.go:256-288 | filling a cache hangs if and only if the file is compressible and its compressed data is not read to the end: the object is there, the check fails, the write stops early, or the origin breaks off |
| Hanging.StandstillIff | pkg/turbocharger/manifesthandler.go:239-289 | in the whole system, the requests that are getting a file stand still if and only if each of them hangs or waits for one that hangs |
| Hanging.HungUntilRestart | pkg/turbocharger/manifesthandler.go:239-289 | in the whole system, a request that hangs does so until a restart, and till then no request that comes for the content gets past it |
| Hanging.TwoRequestsHang | pkg/turbocharger/manifesthandler.go:222-225 | a run of the whole system in which nothing fails and the second of two requests for one file hangs |
| Sequential.DownloadedAtMostOnce | pkg/turbocharger/manifesthandler.go:169-194 | over any sequence of requests and restarts, a content that is no requested manifest is downloaded exactly once if it ends up cached and never otherwise, and is in one of the caches only |
| Sequential.DownloadedWhereItBelongs | pkg/turbocharger/manifesthandler.go:258-289 | over any sequence of requests and restarts, what was once downloaded was cached nowhere, was the file asked for, stays for good in the cache that its name then selected, and is never downloaded again |
| Sequential.ServedOnceServedForEver | pkg/turbocharger/manifesthandler.go:343-376 | a page sent in full once is later answered from the caches with the same content and status, whether or not processes were restarted and the origin can be reached |
| Sequential.RestartsDoNotShow | pkg/turbocharger/manifesthandler.go:307-391 | disk, answers and downloads are after any restarts as if there had been none, so RAM is a copy that cannot be observed |
| Sequential.PublishedIsAnswered | pkg/turbocharger/manifesthandler.go:77-123 | whatever was cached or failed before, while the caches work and the origin can be reached, a request for a published manifest is answered if and only if it does not need a file on which a call of this process hung; else it hangs too |
| Sequential.ReturnsIff | pkg/turbocharger/manifesthandler.go:77-123 | a call does not return exactly if it needs a file that could not be read from a cache, and a lock kept by an earlier call or an unfinished compressed download is in its way |
| Sequential.HeldIff | pkg/turbocharger/manifesthandler.go:239-246 | a lock is kept exactly if some call hung on its content since the last restart |
| Sequential.WorkingNeverHangs | pkg/turbocharger/manifesthandler.go:77-123 | while the caches work and downloads do not break off, every call returns, whether or not the origin can be reached |
| Sequential.OneFailureBlocks | pkg/turbocharger/manifesthandler.go:261-288 | after one failing check of the cache, that request and every later one for the file hangs, until a restart |
| Sequential.NoReplyIff | pkg/turbocharger/manifesthandler.go:219-304 | while the caches work, a call returns without having written anything if and only if its file is not cached, no call hangs on it, and the origin cannot be reached or has not got it |
| Sequential.EmptyPage | pkg/erbackend/turbochargerbackend/backend.go:29-35 | an input for which the client gets status 200 with an empty body in place of the file |
| Sequential.AnswersAreGenuine | pkg/turbocharger/manifesthandler.go:77-195 | every answer given one at a time, whatever fails, meets the specification used for concurrent ones |
| Handler.ManifestHandler.constructor | pkg/turbocharger/manifesthandler.go:68-75 | a new process has empty RAM, free locks, and the disk caches as they are |
| Handler.ManifestHandler.OptimizeManifest | pkg/turbocharger/manifesthandler.go:393-400 | the loop builds the lookup table in which later lines replace earlier ones |
| Handler.ManifestHandler.LoadManifest | pkg/turbocharger/manifesthandler.go:343-376 | the manifest comes from the disk cache if that can be read, else from the origin and into the disk cache, whether or not that works |
| Handler.ManifestHandler.ResolveManifest | pkg/turbocharger/manifesthandler.go:307-391 | with RAM and named lock, gives what RAM, disk and origin determine, keeps a success in RAM, and leaves the lock free |
| Handler.ManifestHandler.ServeFromCache | pkg/turbocharger/manifesthandler.go:125-195 | gzipped cache first, then the uncompressed one; from the former, exactly a client whose header has "gzip" somewhere gets the stored bytes as they are; a cache that cannot be read is passed over |
| Handler.ManifestHandler.HydrateCache | pkg/turbocharger/manifesthandler.go:219-289 | fills the one cache that suits the path if the origin has the file and the insertion works, and leaves the lock free; does not return behind a call that hangs; does not return and keeps the lock if the pipe stalls |
| Handler.ManifestHandler.ServeHTTPFromManifest | pkg/turbocharger/manifesthandler.go:77-123 | whether the call returns, the answer, what is held afterwards and the download are those of the specification, whatever is in RAM and whatever fails |
| Middleware.MRunKeepsInv | pkg/turbocharger/middleware.go:63-211 | the invariant of discoveries and pings in every reachable state |
| Middleware.PingRate | pkg/turbocharger/middleware.go:176-186 | in any window of T ms the origin gets at most m * (T / 5000 + 1) pings, m being the number of initial attachments |
| PingBound.BoundIsReached | pkg/turbocharger/middleware.go:176-186 | for every m and every T there is a run with m initial attachments and that many pings in a window of T ms |
| PingBound.PingRateExact | pkg/turbocharger/middleware.go:176-186 | a number bounds the pings of all runs with at most m initial attachments in windows of T ms if and only if it is at least m * (T / 5000 + 1) |
| PingBound.OnePerPeriodIff | pkg/turbocharger/middleware.go:176-186 | the documented rate, T / 5000 + 1, holds for all windows of all runs with at most m initial attachments if and only if m is at most 1 |
| Middleware.PingedOnceAfterExpiry | pkg/turbocharger/middleware.go:114-132 | a discovery pings at most once and only when its five seconds are over |
| Middleware.OnlyRacersAttach | pkg/turbocharger/middleware.go:95-111 | after the first store, initial attachments come only from requests that were already past the check |
| Middleware.ServedWasAdvertised | pkg/turbocharger/middleware.go:63-132 | requests are served only from subtrees the origin advertised and below their prefix, and from a stale one only if its renewal has been started; that those below the prefix are served is in `Turbocharged.BelowPrefixIsServed` |
| Turbocharged.BelowPrefixIsServed | pkg/turbocharger/middleware.go:68-73 | over all runs, a request that comes for a path below the prefix in use is served from that discovery with its own next step, which it can always take |
| Turbocharged.NoneReachesOrigin | pkg/turbocharger/middleware.go:68-79 | while discoveries with that prefix are in use, no request that comes for a path below it is handed to the origin |
| Turbocharged.HeaderComesIntoUse | pkg/turbocharger/middleware.go:82-111 | whatever subtree the origin puts into the header is in use two steps later of the goroutine that got it: of a ping, or of a request that came before anything was attached |
| Middleware.WorkNeverBlocks | pkg/turbocharger/middleware.go:98-110 | a request or ping that has something to attach or detach can always take its next step |
| Middleware.AdvertisedComesIntoUse | pkg/turbocharger/middleware.go:149-173 | what was advertised to the first request or to a ping is in use, by a discovery no older than the advertisement, once its goroutine has taken two more steps |
| Middleware.FailureDetaches | pkg/turbocharger/middleware.go:124-129 | a failed ping or a conflicting advertisement switches turbocharging off with the next step of its goroutine |
| Turbocharged.DetachedForReason | pkg/turbocharger/middleware.go:98-105 | turbocharging is switched off only after a request met an advertisement of another subtree than the one in use, or a ping could not be sent or was not answered by 200 with a valid header |
| Turbocharged.ReasonDetaches | pkg/turbocharger/middleware.go:124-158 | either of these does switch it off, with the next step of the goroutine that it happened to |
| Routing.TrimSlashes | pkg/erserver/mountresolver.go:126-127 | the normal form is the prefix without its trailing slashes, all of them and nothing else |
| Routing.FrontendMatchers.AddMount | pkg/erserver/mountresolver.go:80-113 | adding a mount in place keeps every list sorted and complete |
| Routing.FrontendMatchers.AddApp | pkg/erserver/mountresolver.go:71-114 | adds the mounts of an application, or reports its first frontend in error |
| Routing.BuildMatchers | pkg/erserver/mountresolver.go:56-118 | a configuration is accepted exactly if nothing is wrong with it, and its table gives every request what the frontends say; else an error says what is wrong |
| Routing.ResolveMount | pkg/erserver/mountresolver.go:120-165 | the scans find the first match of the three kinds of rule in turn |
| Routing.ResolvesIff | pkg/erserver/mountresolver.go:120-165 | a request gets a mount of the table exactly if some placed mount is for it, and then one of the best kind: global, exact hostname, pattern |
| Routing.TableAsConfigured | pkg/erserver/mountresolver.go:56-165 | in terms of the configuration alone: a request gets nothing exactly if no frontend of any application is for it, by its path and its kind, hostname or pattern; else the settings, application and backend of a frontend of the best kind |
| Routing.AcceptedIff | pkg/erserver/mountresolver.go:65-114 | a configuration is accepted exactly if every application has a backend, every kind is known and every pattern compiles; else the error names something that is wrong with it |
| MostSpecific.MatchesBySegments | pkg/erserver/mountresolver.go:121-133 | a mount is for exactly the paths whose first slash-separated segments are those of its prefix |
| MostSpecific.LongestWinsIff | pkg/erserver/mountresolver.go:32-35 | for any configured mounts, however the unstable sort leaves them, the first match has the longest normal prefix for every rooted path if and only if whatever serves more paths is spelled shorter than some mount at the normal prefix of what serves less |
| MostSpecific.TidyLongestWins | pkg/erserver/mountresolver.go:32-35 | sorting by raw length is enough if no prefix has more than one trailing slash |
| MostSpecific.UntidyCanShadow | pkg/erserver/mountresolver.go:126-130 | "/a///" takes requests away from "/a/b" |
| MostSpecific.MostSpecificWins | pkg/erserver/mountresolver.go:120-149 | in the table built from a configuration in which, at the place that decides, whatever serves more paths is spelled shorter, the most specific global, else exact-hostname rule that applies decides |
| MostSpecific.SameWinnerIff | pkg/erserver/mountresolver.go:92-110 | for any configured mounts, what the unstable sort leaves open never shows for a rooted path if and only if no two of them are in contest |
| MostSpecific.UntidyContest | pkg/erserver/mountresolver.go:92-110 | "/a//" and "/a/b" are in contest |
| MostSpecific.TidyAndDistinctUncontested | pkg/erserver/mountresolver.go:92-110 | no two mounts are in contest if prefixes have one trailing slash at most and differ in more than that slash |
| MostSpecific.GlobalRulesAgreeIff | pkg/erserver/mountresolver.go:80-149 | all tables that one configuration may get agree on the requests that global rules decide if and only if no two global rules are in contest |
| MostSpecific.HostRulesAgreeIff | pkg/erserver/mountresolver.go:80-149 | all tables that one configuration may get agree on the requests that the rules of a hostname decide if and only if these rules contest only for what a global rule takes away |
| MostSpecific.PermutedTable | pkg/erserver/mountresolver.go:65-114 | a configuration in another order is accepted too and has the same mounts at every place |
| MostSpecific.OrderIndependent | pkg/erserver/mountresolver.go:135-149 | requests decided by a global or exact-hostname rule go to the same mount however the applications are listed, if no two mounts at the place that decides are in contest |
| MostSpecific.Strip | pkg/erserver/serve.go:153-163 | the path handed to the application begins with a slash |
| MostSpecific.StripGivesBackIff | pkg/erserver/serve.go:153-163 | for every matched path, prefix and stripped path make up the path again (or "/" for the prefix itself) if and only if the prefix has no trailing slash, or one, and the path has it too and not twice |
| MostSpecific.StripOutOfRangeIff | pkg/erserver/serve.go:153-163 | with one trailing slash at most, stripping is out of range exactly for the path without that slash |
| MostSpecific.UntidyStripLoses | pkg/erserver/serve.go:153-163 | with "/a//", "/a/bcd" is handed on as "/cd" and "/a/" is out of range |
| HostRegexp.UnescapeEscape | pkg/erserver/hostregexp.go:30-36 | unescaping undoes escaping for every string |
| HostRegexp.CloseOfEscaped | pkg/erserver/hostregexp.go:8-17 | escaping neither makes nor breaks a placeholder |
| HostRegexp.ToRegexpIsRender | pkg/erserver/hostregexp.go:11-28 | for every input, the result is placeholders verbatim and dots escaped elsewhere, between anchors |
| HostRegexp.WrittenIsMeant | pkg/erserver/hostregexp.go:10-28 | literals and placeholders written in any order come out as meant |
| Discovery.EhDiscovery.ProcessEvent | pkg/erdiscovery/ehdiscovery/ehdiscovery.go:107-120 | one event is applied, or rejected without effect |
| Discovery.EhDiscovery.ProcessEvents | pkg/erdiscovery/ehdiscovery/ehdiscovery.go:93-105 | a batch is folded in up to where it stops; the cursor moves only over a whole batch; applications stay filed under their own IDs |
| Discovery.EhDiscovery.ReadApplications | pkg/erdiscovery/ehdiscovery/ehdiscovery.go:60-68 | all applications and nothing else, in strictly increasing order of ID, whatever the order of the map's iteration |
| Discovery.ListingUnique | pkg/erdiscovery/ehdiscovery/ehdiscovery.go:60-68 | there is only one such list |
| Discovery.FoldBatches | pkg/erdiscovery/ehdiscovery/ehdiscovery.go:93-120 | batches in any division give the same applications |
| Discovery.ReplayAfterFailure | pkg/erdiscovery/ehdiscovery/ehdiscovery.go:93-105 | reading any part of a batch and then all of it is the same as reading it once |
| Discovery.NeverOlderThanCursor | pkg/erdiscovery/ehdiscovery/ehdiscovery.go:93-120 | over any attempts, what is known of an application is its state at some point from the cursor to the furthest attempt, and no unsupported event is passed |
| Discovery.Converges | pkg/erdiscovery/ehdiscovery/ehdiscovery.go:93-105 | once the cursor has caught up, the applications are those of the log |
| Discovery.ListedIffLastWritten | pkg/erdiscovery/ehdiscovery/ehdiscovery.go:107-120 | an application is listed exactly if it was written last under its ID and not deleted since |
| Backends.BackendCache.FindEntry | pkg/erserver/backendfactory.go:133-144 | the entry of the application, if its digest is the same |
| Backends.BackendCache.MakeBackendInternal | pkg/erserver/backendfactory.go:56-109 | makes the layers of a configuration innermost first, by recursion on its nesting |
| Backends.BackendCache.MakeBackend | pkg/erserver/backendfactory.go:25-53 | the cached instance, or a new one that replaces it |
| Backends.BuildMakesAllLayers | pkg/erserver/backendfactory.go:80-103 | succeeds exactly if every layer's constructor does, of the kinds that have one which can fail, each written out; and then every wrapper is in front of the instance of what it wraps |
| Backends.NewIffChanged | pkg/erserver/backendfactory.go:37-52 | over any calls, a new instance is made exactly if the JSON differs from that of the application's last success, else that instance is reused; a failure leaves the cache unchanged |
| Backends.ReturnedIsConfigured | pkg/erserver/backendfactory.go:37-52 | whatever is returned was made for the same application, layer by layer, from a configuration with the same JSON |
| Backends.NeverShared | pkg/erserver/backendfactory.go:115-120 | two applications never share an instance |

## Left out

- Deployment.EveryRunEnds: says nothing of a store that never returns; an insertion is one step that succeeds or fails.
- Deployment.ScheduleIndependent: goroutines are steps on values, not methods on objects, because their interleavings are the subject; `Deploying.DeploymentManager.Deploy` is the form with objects, for one order of the steps.
- Middleware.MRunKeepsInv: likewise, requests and ping goroutines are steps on values. A request that indexes its header out of range (no space) or dereferences nil (after a detachment) ends without effect, because net/http recovers the panic; in a ping goroutine the former ends the process, and with it the run.
- Middleware.AdvertisedComesIntoUse: says nothing of a goroutine that is never scheduled; steps that can be taken are not assumed to be taken.
- MutexMaps.MutexMap.TryLock: the waiting of `Lock` needs other threads, so it is modelled by the steps (`Pc.Waiting`) and not as a method.
- Resolver.DeadlockFree: does not say that every resolution ends; two waiters may overtake each other for ever without a fairness assumption.
- Faultless.FaultlessIsAnswered: speaks of answers that are given; a request may still hang or wait behind one that does (`Hanging.TwoRequestsHang` is such a run).
- Cached.CachedIsAnswered: likewise, of a request that comes to an answer, and that can read the caches itself.
- Progress.StandstillIff: says nothing of fairness; a request that can take steps is not assumed to take them, and resolutions that wait for the same manifest may overtake each other.
- Hydration.NobodyMovesIff: says nothing of fairness; waiters may overtake each other, and a download that neither ends nor hangs keeps its waiters waiting.
- Hydration.DownloadsNeverOverlap: one after the other, a content may be downloaded again, as the comment in the source says (manifesthandler.go:222-225).
- Sequential.DownloadedAtMostOnce: for requests one at a time while the cache stores work; concurrent requests for one content under differently typed paths can download it one after the other and fill both caches.
- Sequential.ServedOnceServedForEver: likewise needs cache stores that work and downloads that do not break off, as do `Sequential.RestartsDoNotShow` and `Sequential.DownloadedWhereItBelongs`.
- Handler.ManifestHandler.HydrateCache: runs alone, so it waits only behind calls that hang; waiting for a download that ends is in `Hydration` and `World`. A call that never returns is a result (`returned == false`), since methods end.
- World.WRunKeepsInv: the origin has separate stores for files and manifests; one store for both is modelled in `Deploying` only.
- World.NotModifiedIsSound: compares If-None-Match with one ETag, as the code does; lists and weak ETags are not parsed.
- ObjectIDs.AcceptedTexts: texts with characters outside ASCII are sequences of characters here, not of UTF-8 bytes; they are rejected either way.
- Streaming: bodies and cache writes happen at once, and a cached file is read without errors once it is open; the pipe between compressor and insertion is in `Filling.dfy`. An insertion into a cache that fails leaves nothing, since files are written under another name and renamed.
- HTTP details: Content-Type, other headers, query strings, HEAD, and reading the Host header.
- The S3 store, whose insertion is "if absent" like that of the file store (covered by the choice of `Write`).
- Manifest lookups in RAM, caches and locks are keyed by object ID where the source uses its text; `ObjectIDs.TextInjective` makes that the same.
- Regular expressions and their compilation, JSON encoding of configuration, backend constructors: parameters.
- Order independence for hostname patterns: they are first match in the order of the configuration.
- The redirect to HTTPS and the IP filter between routing and prefix stripping, configuration polling, metrics, TLS, the admin UI, Docker and S3 discovery, command-line tools, and the deprecated S3 website upload.
- Validation of application configuration and the labels of containers: would only add easy members.
