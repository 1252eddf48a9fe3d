# ce-drive-serve: a verified model

`ce-drive-serve` hosts content-addressed drives behind capabilities. This project models the protocols
and algorithms written in that repository and proves what they keep, over every input and every run.
`dafny verify dfyconfig.toml` checks all of it.

| file | what it models |
|---|---|
| `Durability.dfy` | journal, snapshot, reset, death and boot of one drive, a step at a time |
| `Feed.dfy`, `Restart.dfy`, `Bootstrap.dfy`, `Hosting.dfy` | the change feed and a client following it, also across restarts; Open racing with writes; the handlers that change a tree |
| `Listing.dfy`, `JsListing.dfy` | directory pages by name cursor, and the paging loops of the Python and the JavaScript client over a directory that changes |
| `Corpus.dfy`, `Crawl.dfy` | the depth-first corpus walk, its pages, and an index that crawls incrementally |
| `ReadPath.dfy` | chunking, the ranged read plan, and the client's fetch, check and trim |
| `WireTypes.dfy`, `Wire.dfy`, `WireLayout.dfy`, `WireProofs.dfy`, `Sdk.dfy` | the messages, their bincode grammar, the bytes it prints, its laws, and the SDK's encoder and decoder |
| `Text.dfy`, `SdkAgreement.dfy` | what the SDKs make of text, and where the Python and the JavaScript SDK read the same reply |
| `Paths.dfy`, `Authority.dfy` | path normalisation and scopes; the authorization gate and Share |
| `Dedup.dfy` | the set of reply tokens already seen |
| `Wrappers.dfy`, `Math.dfy`, `Seqs.dfy` | results, minimum and maximum, slices |

The host's handlers run under one mutex and give it up around I/O. Each method of `Durability.HostedDrive`
and `Hosting.Tenant` is one stretch of code under that mutex. Both classes carry the run of steps their
methods made, a run of the state machine the theorems are about, and their fields are what that run makes
of a fresh host.

## What the proofs say about the code

Where the code does less than its comments say, the model follows the code, the exact condition under
which the promise holds is proved, and a concrete input shows that it fails otherwise.

- **A write can be acknowledged and lost.** `src/serve.rs:1112-1117` argues that saving the snapshot before
  emptying the journal loses nothing. The state is captured before the save, with the lock dropped in
  between, and the reset empties the whole journal: a write journalled between the capture and the reset is
  in neither file until the next snapshot is saved. `Durability.DurableIffNoAppendInWindow` says that a run is
  durable throughout exactly when no write falls there, `Durability.RecoveryIsExact` which writes a boot
  recovers after any run, and `Durability.WindowLosesAnAckedWrite` gives a run that loses one.
- **A mirror can miss changes for good.** `op_open` captures the state and reads the feed cursor in two
  different lock sections. Changes recorded in between are in neither the snapshot nor the deltas, and the
  cache repeats the reply. `Bootstrap.MissedIffBetween` and `Bootstrap.MirrorIsWholeIffQuiet` are exact;
  `Bootstrap.OpenCanMissAWrite` is a run. The loop in `run` awaits each message, so the race needs two
  callers of the public `dispatch`.
- **Outer white space.** `norm_path` trims white space, then slashes, once. Normalising twice changes a path
  if and only if white space is left at its end (`Paths.NormIdempotent`; `Paths.NormChangesTwice` is one). A
  capability minted for a path decodes to another one if and only if the path's core has outer white space
  (`Paths.DrivePrefixRoundTrip`, `Paths.MintedPathReadsBackShorter`). Shares can leave the root's scope if
  and only if that scope has, unless it has a ".." between two slashes and so nothing can be shared out of it
  (`Authority.RunsStayInScopeIffClean`, `Authority.UnusableIffNoPath`). Such a scope does come out of a prefix,
  and a share from it escapes (`Paths.UncleanScopeDecodes`, `Authority.SpacedRootEscapes`).
- **The ".." guard looks at the raw path.** A path it admits normalises to one with a ".." segment if and only
  if the path, trimmed, begins or ends with ".." (`Paths.GuardIsRightIff`); `".. "` is one
  (`Paths.GuardMissesPaddedDotDot`). `Authority.GateAdmitsDotDotIff` says when the whole gate lets such an
  operation through.
- **A request can be handled twice.** The set of tokens is emptied when it outgrows 8192. A request is handled
  if and only if the set was emptied since each earlier one with its token (`Dedup.HandledIffCleared`), so a
  run handles some request twice if and only if a token arrives on both sides of a clear
  (`Dedup.HandledTwiceIffStraddles`); `Dedup.RepeatAfterClearIsHandledAgain` is such a run.
- **Incremental crawls see content stamps only.** A rename, a new tag or a kind app installed later leaves
  the stamp alone, so an index that asks for what changed keeps the old item (`Crawl.RenameIsMissed`). The two
  crawls agree after every round exactly when nothing vanished and every change is stamped no earlier than
  the newest item seen (`Crawl.IncrementalIsFullIffCaught`).
  An index that fell behind is right again exactly when every id it ever fetched is there and every item was
  last fetched as it is now (`Crawl.IndexIsFullIffUpToDate`).
- **The SDKs do not read every reply alike.** On any bytes both raise or neither does. What they read is the same
  if and only if every entry kind is 0 or 1 and no text begins with a byte order mark
  (`SdkAgreement.SdksAgreeIff`). Python takes other kinds for directories and JavaScript for files
  (`SdkAgreement.OddEntryIsReadTwoWays`); no host sends one. JavaScript's `TextDecoder` drops the mark and Python
  keeps it; a client can put one anywhere a name or a tag goes (`SdkAgreement.MarkedTagIsReadTwoWays`).
- **JavaScript's `ls` need not end.** It sends back the cursor without its mark.
  The two SDKs walk alike if and only if no name lies between a cursor and what it decodes to and no cursor is a
  mark alone (`JsListing.WalksAlikeIff`); on a directory that holds still the walk ends with exactly the directory
  under the same condition on the names that pages end with (`JsListing.StillWalkIsExactIff`). A directory of
  three names is walked forever (`JsListing.MarkedDirIsWalkedForever`).
- **A restart hides changes from a client that only polls.** The feed begins again at 0 while the client's cursor
  stays. It gets every record of the new feed but the first ones, as many as its cursor says; it misses none if
  and only if it carried none across the restart or has opened the drive again
  (`Restart.RestartHidesTheFirst`, `Restart.RestartHidesAChange`). `src/tenant.rs:52-53` tells clients to open again.
- The repository's README.md:79 puts `drive:delete` above `drive:write`, but the gate asks no more than write
  of a delete (`src/serve.rs:48-49`), as its comment there says (`Authority.GateOpensIff`).
- The repository's README.md:55 says that the state is written back after every mutating operation, before
  the reply. The code replies once the journal has the record (`src/serve.rs:647-655`); the model follows the
  code.

## Assumptions

- A save of the state file happens or does not; a failed one leaves the old file. Replaying a journal stops at
  its first torn record, and opening it cuts the torn tail off. A drive is the set of operations applied to it.
- One snapshot cycle runs at a time per drive: the durability task is a sequential loop. The public
  `DriveServer::snapshot` is not run beside it.
- The tree lists a directory strictly sorted by name, with non-empty, slash-free names, and resolves a path
  segment by segment. Node ids are unique in a drive (`Corpus.UniqueNodes`).
- The capability verifier accepts a leaf for an ability only if the leaf confers it under the ladder of
  README.md:79-80 (`Authority.SoundVerifier`, used only for abilities). The drive a path's capability is minted for has no slash in
  its id (`Paths.DrivePrefixRoundTrip`).
- The hash is any function. End-to-end claims about bytes read hold unless it collides. The host's fetch of a
  manifest gives the blob of the CID it asked for or nothing: the client checks chunks, not the manifest.

## Model

| member | source | states |
|---|---|---|
| Durability.RecoveryIsExact | src/serve.rs:1118-1145 | after any run, boot recovers exactly the appended operations whose append did not fall between a capture and the reset of its cycle, or that a later saved snapshot caught before the next death |
| Durability.AckedRecoveredUnlessLost | src/serve.rs:647-655 | an acknowledged operation survives a crash now if and only if no such window lost it |
| Durability.DurableIffNoAppendInWindow | src/serve.rs:1112-1117 | a run is durable at each of its points if and only if no append fell between a capture and the reset that follows it |
| Durability.WindowLosesAnAckedWrite | src/serve.rs:1123-1137 | a seven-step run in which an acknowledged write is gone after the crash |
| Durability.RoughRunLosesNothing | src/serve.rs:1123-1145 | a run with a failed save, a torn record, a failed reset and two deaths, after which everything appended whole is there |
| Durability.SavedCoversMemory | src/serve.rs:1114-1117 | between a good save and its reset, state file and journal together hold all that memory holds |
| Durability.ResetFollowsGoodSave | src/serve.rs:1128-1137 | a journal reset is always preceded, in its own cycle, by a good save: a failed save never costs a record |
| Durability.TornWasNeverAcked | src/tenant.rs:141-143 | an operation whose append was torn is neither recovered nor was ever acknowledged |
| Durability.HostedDrive.AppendToJournal | src/serve.rs:651-654 | the write-ahead step: the record is in the journal before the operation is applied |
| Durability.HostedDrive.Acknowledge | src/serve.rs:652-655 | the reply step: what a client is told follows the journal record and the operation |
| Durability.HostedDrive.CaptureState | src/serve.rs:1123-1127 | the capture step: the snapshot loop holds a copy of memory |
| Durability.HostedDrive.SaveState | src/serve.rs:1128-1133 | the save step: the copy replaces the state file, or the cycle ends and nothing changes |
| Durability.HostedDrive.ResetJournal | src/serve.rs:1134-1144 | the reset step: the journal is emptied whatever was appended since the capture, or the cycle ends |
| Durability.HostedDrive.Reboot | src/main.rs:123-144 | boot restores the saved state, then replays the journal on top of it; memory then holds exactly the operations of the run that were appended and not lost |
| Durability.ReplayOnto | src/tenant.rs:144-158 | the replay loop: applies the records before the first torn one and keeps exactly those |
| Feed.ChangeFeed.Cursor | src/feed.rs:23-25 | the cursor is the number of records |
| Feed.ChangeFeed.Record | src/feed.rs:28-32 | a record is appended with the next number; the feed stays gapless |
| Feed.ChangeFeed.Poll | src/feed.rs:37-43 | the loop returns the first `max(limit, 1)` records numbered after the cursor |
| Feed.PageIsNextStretch | src/feed.rs:34-43 | a page is the stretch of the feed right behind the cursor, empty only at the end, and the new cursor is where it stops |
| Feed.Drain | src/feed.rs:3-6 | polling until an empty page ends, with exactly the records behind the starting cursor, whatever the limits |
| Feed.FollowerHoldsPrefix | src/feed.rs:3-6 | in any interleaving of records and polls the client holds exactly a prefix of the feed and its cursor is the prefix's length |
| Feed.FollowerCatchesUp | src/feed.rs:34-43 | as many polls as there are records bring a client up to date once the drive is silent |
| Restart.ClientHasStretch | src/tenant.rs:52-67 | in any run of changes, polls, restarts and opens, what the client has of the feed is the stretch behind the cursor it carried across the last restart, up to where it has polled |
| Restart.RestartHidesTheFirst | src/tenant.rs:52-67 | with enough polls it has all records but as many first ones as that cursor says, so it misses none if and only if nothing was recorded or it carried none |
| Restart.RestartHidesAChange | src/tenant.rs:52-67 | a run after which no poll ever shows a change |
| Bootstrap.OpenThenPoll | src/serve.rs:671-706 | every Open reply carries the feed cursor of its moment, which is at least the captured one; snapshot and deltas miss exactly the stretch between the two |
| Bootstrap.MissedIffBetween | src/serve.rs:687-704 | a change is missed if and only if it was recorded between the capture and the install of the snapshot that was sent |
| Bootstrap.MirrorIsWholeIffQuiet | src/serve.rs:665-684 | the mirror ends with the whole feed if and only if nothing was recorded between the two, from the cache or not |
| Bootstrap.FollowerHoldsStretch | src/serve.rs:667-669 | in any interleaving with other polls, opens and writes, the mirror has polled exactly the stretch of the feed from the cursor it was told to the one it has reached |
| Bootstrap.FollowerReachesEnd | src/feed.rs:34-43 | once nothing is recorded any more, as many of its polls as there are changes bring it to the end |
| Bootstrap.MirrorCanCatchUp | src/feed.rs:34-43 | from any point of any run, polls alone bring it there |
| Bootstrap.OpenerCanGoOn | src/serve.rs:687-704 | an opener told to publish can fail at any moment, or go on and be answered |
| Bootstrap.OpenCanMissAWrite | src/serve.rs:687-704 | a run in which two mirrors miss a write, the second one served from the cache |
| Hosting.Tenant.constructor | src/tenant.rs:52-67 | a restored drive starts with an empty feed and no cached snapshot |
| Hosting.Tenant.Write | src/serve.rs:777-804 | bad path, conflict and refusal leave tree and feed alone; success records one Modified change, returns its number and announces it |
| Hosting.Tenant.Mkdir | src/serve.rs:807-820 | one Created change on success, none otherwise |
| Hosting.Tenant.Move | src/serve.rs:822-843 | the node keeps its id; one change at the destination that names the source |
| Hosting.Tenant.Copy | src/serve.rs:845-866 | needs a file; one Created change at the destination |
| Hosting.Tenant.Delete | src/serve.rs:868-884 | one Deleted change for the resolved node |
| Hosting.Tenant.OpenCached | src/serve.rs:664-684 | answers with the cached snapshot, the leaf's abilities and the quota exactly when the cursors match, and is the Begin step |
| Hosting.Tenant.CaptureState | src/serve.rs:687-691 | is the Capture step |
| Hosting.Tenant.InstallSnapshot | src/serve.rs:698-704 | caches the CID with the current cursor, replies with both, and is the Install step |
| Hosting.Tenant.Poll | src/serve.rs:959-969 | a poll without a cursor starts at 0; the reply is the page and the cursor behind it |
| Listing.LessIsTotal | src/serve.rs:730-733 | the order on names by first difference is total |
| Listing.LessByFirstDifference | src/serve.rs:730-733 | the first difference decides, and a proper prefix comes first |
| Listing.LeafOfChild | src/serve.rs:735-737 | the text after an entry path's last slash is the name it was listed under |
| Listing.Position | src/serve.rs:730-733 | the search loop finds the first name after the cursor |
| Listing.ListPage | src/serve.rs:724-740 | a page is the stretch of the directory behind the cursor; the cursor handed back is its last name, if more follows |
| Listing.OpList | src/serve.rs:210-240 | the reply shows the entries from the first name after the cursor on, as many as the limit allows, with the last name as cursor when more follow; each entry's path is the directory's segments and the name, its other fields are those of the node, none of them without content; NotFound when the path cannot be listed |
| Listing.PageIsInterval | src/serve.rs:729-739 | a page holds exactly the names after the cursor and up to the next one |
| Listing.Ls | sdk/py/cedrive.py:527-537 | the client's loop computes the walk below, page by page; it stops at the first page without a cursor and raises when the path cannot be listed any more |
| Listing.WalkAscends | sdk/py/cedrive.py:527-550 | whatever the directory becomes between pages, the names come out strictly ascending |
| Listing.FinishedWalkIsComplete | sdk/py/cedrive.py:527-550 | a finished walk has every name present throughout exactly once |
| Listing.WalkIsServed | sdk/py/cedrive.py:527-550 | every entry returned was in the directory when some page was served |
| Listing.WalkEnds | sdk/py/cedrive.py:527-550 | the walk ends within one page more than there are names that ever appear |
| Listing.StillWalkIsTheDirectory | sdk/py/cedrive.py:527-550 | on a directory that holds still the walk ends and returns exactly the directory |
| JsListing.JsLs | sdk/js/cedrive.js:302-311 | JavaScript's loop computes its walk, in which the cursor is decoded before it is sent back |
| JsListing.WalksAlikeIff | sdk/js/cedrive.js:302-311 | the two SDKs walk alike throughout, whatever the directory becomes, if and only if no name of a page's directory is between the cursor asked with and what it decodes to, and no cursor decodes to nothing |
| JsListing.UnmarkedNamesWalkAlike | sdk/js/cedrive.js:302-311 | so they do when no name begins with the mark |
| JsListing.StillWalkIsExactIff | sdk/js/cedrive.js:302-311 | on a directory that holds still JavaScript's walk ends with exactly the directory if and only if that holds of each name that a full page ends with before the end |
| JsListing.MarkedDirIsWalkedForever | sdk/js/cedrive.js:302-311 | a directory of three names on which, one name a page, the walk is open after every number of requests |
| Corpus.LsChild | src/corpus.rs:352-361 | listing the path string the walk builds for a sub-directory gives that sub-directory |
| Corpus.VisitItem | src/corpus.rs:353-382 | an item moves out or onto the stack, losing and repeating nothing |
| Corpus.Visit | src/corpus.rs:352-383 | one directory's loop moves its files out and its sub-directories onto the stack, losing and repeating nothing |
| Corpus.WalkFacts | src/corpus.rs:346-387 | the stack loop ends and returns the recursive walk sorted by path |
| Corpus.FoundOnce | src/corpus.rs:346-387 | the recursive walk finds no path twice |
| Corpus.SortedIsUnique | src/corpus.rs:385 | paths identify files, so there is one way to sort them |
| Corpus.CorpusAscends | src/corpus.rs:385 | the result is strictly sorted by path |
| Corpus.CorpusIsExact | src/corpus.rs:342-385 | the result is exactly the content-bearing files that a lookup by segments from the start path finds, each with its path, the kind its properties name and all that is known of it |
| Corpus.SameNodeSamePath | src/corpus.rs:346-387 | when node ids are unique in the drive, a walk meets none twice |
| Crawl.Limit | src/corpus.rs:447-457 | a limit from 1 to 200 is kept, a larger one is 200, none is 50, and 0 is 1 |
| Crawl.OpItems | src/serve.rs:443-480 | the drive asked for, else the first one served; no drives and no such drive are errors; items `offset..offset + limit` show the files below the normalised path in order, each by node id and whole second, and the cursor is the next offset exactly when more follow |
| Crawl.RequestedFiles | src/corpus.rs:472-478 | those files are exactly the ones with content below the path that were modified in or after the second asked for, sorted by path |
| Crawl.CrawledIdsAreUnique | src/corpus.rs:158-160 | node ids that are unique in the drive are unique in a crawl |
| Crawl.CrawlAll | src/serve.rs:462-480 | following the cursor over a drive that holds still ends with the filtered walk, nothing skipped or repeated |
| Crawl.RecentItems | src/corpus.rs:473-478 | filtering files by age is filtering their items by the age they carry |
| Crawl.MergeIsFullIffCaught | src/corpus.rs:427-434 | one merge by id equals a fresh full crawl if and only if nothing vanished and nothing changed behind the newest stamp |
| Crawl.IncrementalIsFullIffCaught | src/corpus.rs:427-434 | the same after every round of any number of rounds |
| Crawl.IndexIsLastFetched | src/corpus.rs:427-434 | after any rounds the index holds, for each id, the item as the last round that fetched it found it, and no other id |
| Crawl.IndexIsFullIffUpToDate | src/corpus.rs:427-434 | after any rounds, also when it fell behind, the index is a full crawl's if and only if every id ever fetched is there and every item was last fetched as it is now |
| Crawl.CrawlerKnowsNewest | src/corpus.rs:429-430 | the newest stamp among the items fetched is the newest there ever was |
| Crawl.AskedFromIsNewest | src/corpus.rs:429-430 | ... which is at least every stamp there ever was and is 0 or one of them |
| Crawl.RenameIsMissed | src/corpus.rs:473-478 | two rounds after which the index still has the old name |
| ReadPath.MakePlan | src/serve.rs:1237-1282 | for any manifest the plan is every listed chunk with a byte of the requested range, and no other, each once and in order, with its offset and length; nothing for an empty range or one past the end; no u64 step overflows |
| ReadPath.ChunkMeetsRange | src/serve.rs:1267-1270 | a chunk holds a wanted byte if and only if its index lies in that run |
| ReadPath.PlanIsTight | src/serve.rs:1243-1273 | for a well-formed manifest the run is contiguous, covers the range, has no empty and no superfluous chunk |
| ReadPath.PutChunks | sdk/py/cedrive.py:627-628 | the chunk loop stores every chunk under its hash and lists the hashes in order |
| ReadPath.PutObject | sdk/py/cedrive.py:624-631 | ... and the manifest of the data, chunk by chunk, is stored under its own hash, which names the object |
| ReadPath.OpRead | src/serve.rs:743-767 | a path that leads to no object, an object without a manifest and a manifest that cannot be read are errors; otherwise the plan is exactly the wanted chunks of the manifest |
| ReadPath.ClientRead | sdk/py/cedrive.py:643-662 | the fetch loop succeeds if and only if every planned chunk came back with its hash, and returns the trimmed buffer; the first that did not decides the error |
| ReadPath.PySliceCountsFromTheBack | sdk/py/cedrive.py:659-662 | the cut, also for a plan that starts behind the range: negative ends count from the back, ends too far are the end |
| ReadPath.TrimIsExact | sdk/py/cedrive.py:659-662 | cutting a buffer that covers the range gives exactly the wanted bytes |
| ReadPath.PlannedReadIsExact | src/serve.rs:1237-1282 | any verified replies to the host's plan trim to the wanted bytes |
| ReadPath.RangedRead | sdk/py/cedrive.py:624-662 | store, plan, fetch, check, trim: whatever chunks the blob store answers, the client raises or returns `data[offset..min(offset + len, total)]`; when the store that the upload filled serves what it holds, it does not raise |
| WireLayout.Number8 | sdk/py/cedrive.py:105-111 | numbers are little-endian, eight bytes for a u64 (and four for a u32, `WireLayout.Number4`) |
| WireLayout.TextAt | sdk/py/cedrive.py:116-120 | text is its length, then its bytes |
| WireLayout.OptTextAt | sdk/py/cedrive.py:126-134 | an absent option is the byte 0, a present one the byte 1 and its value |
| WireLayout.ItemsInOrder | sdk/py/cedrive.py:136-141 | a list is its items one after the other, the first one first |
| WireLayout.TwoEndedOps | src/wire.rs:52-55 | the bytes of a Move and a Copy: tag 6 or 7, source, destination |
| WireLayout.WriteBytes | src/wire.rs:48-49 | the bytes of a Write: tag 4, path, object, size, base etag |
| WireLayout.ShareBytes | src/wire.rs:58-59 | the bytes of a Share: tag 9, path, audience, abilities, caveats |
| WireLayout.EntryBytes | sdk/py/cedrive.py:320-328 | the bytes of an entry: path, kind 0 or 1, size, mtime, etag, node id, object, document |
| WireLayout.ListingBytes | src/wire.rs:124 | the bytes of a Listing: tag 2, entries, next cursor |
| WireLayout.BareErrors | sdk/js/cedrive.js:53-58 | the tags of the errors without text |
| WireLayout.ReplyBytes | src/wire.rs:94-98 | success is tag 0, failure tag 1 |
| WireProofs.ReqRoundTrip | src/wire.rs:25-81 | the host reads back every request the SDK prints and stops at its end |
| WireProofs.ReplyRoundTrip | src/wire.rs:95-141 | each SDK reads back every reply the host prints, text as bytes, and stops at its end |
| WireProofs.ReqCanonical | src/wire.rs:305-307 | the host accepts no other spelling of a request |
| WireProofs.ReplyExtends | sdk/py/cedrive.py:147-149 | bytes after a reply do not change how it is read |
| WireProofs.ReqsArePrefixFree | sdk/py/cedrive.py:312-317 | a request's bytes begin another's only if they are the same request |
| WireProofs.RepliesArePrefixFree | src/wire.rs:310-312 | the same for replies |
| WireProofs.TruncatedReqRejected | src/wire.rs:305-307 | a request cut anywhere is rejected |
| WireProofs.TruncatedReplyRejected | sdk/py/cedrive.py:155-161 | a reply cut anywhere is rejected by both SDKs, never misread |
| WireProofs.NewerHost | sdk/py/cedrive.py:331-405 | what an SDK makes of tags no host here sends: an unknown success raises, an unknown error is a refusal, an unknown change stays one |
| WireProofs.LenientSdk | sdk/py/cedrive.py:342-348 | any reply tag but 0 is a failure and any flag but 0 is set |
| WireProofs.StrictHost | src/wire.rs:305-307 | the host rejects an unknown operation and any flag above 1 |
| Text.TextRoundTrip | sdk/js/cedrive.js:124-128 | text included, Python reads back every reply the host prints, and JavaScript exactly those in which no text begins with a byte order mark |
| Text.TextsLoseTheirMarks | sdk/js/cedrive.js:124-128 | each text of a reply loses the bytes EF BB BF in front, if it has them, and nothing else |
| SdkAgreement.SdksAgreeButOnKinds | sdk/js/cedrive.js:146-206 | text as bytes: on any bytes both SDKs raise or neither; they stop at the same byte, see the same reply but for entry kinds, and the same kinds if and only if every kind tag is 0 or 1 |
| SdkAgreement.SdksAgreeIff | sdk/js/cedrive.js:124-206 | with the text decoded: both raise or neither, they stop at the same byte, and agree if and only if every kind tag is 0 or 1 and no text in the reply begins with a byte order mark |
| SdkAgreement.MarkedTagIsReadTwoWays | sdk/js/cedrive.js:124-128 | a tag that begins with the mark is read with it by Python and without it by JavaScript |
| SdkAgreement.OddEntryIsReadTwoWays | sdk/py/cedrive.py:320-328 | any entry tagged above 1 is a directory to Python and a file to JavaScript |
| Sdk.Enc.Str | sdk/py/cedrive.py:116-120 | appends the string's bytes in the grammar, whatever follows |
| Sdk.Enc.SeqStr | sdk/py/cedrive.py:136-141 | the loop appends count and items in the grammar |
| Sdk.EncodeReq | sdk/py/cedrive.py:312-317 | the buffer of the imperative encoder is the grammar's form of the request |
| Sdk.Dec.Take | sdk/py/cedrive.py:155-161 | takes the next bytes or fails, and advances the cursor by as many |
| Sdk.Dec.Entry | sdk/py/cedrive.py:320-328 | reads the entry the grammar has there, or fails |
| Sdk.Dec.Entries | sdk/py/cedrive.py:359-360 | the loop over the entry reader reads the counted list the grammar has there, or fails |
| Sdk.Dec.Changes | sdk/py/cedrive.py:331-376 | the same for changes, a Moved one with where it came from |
| Sdk.Dec.Pairs | sdk/py/cedrive.py:381-386 | the same for pairs |
| Sdk.Dec.Chunks | sdk/py/cedrive.py:361-366 | the same for chunk references |
| Sdk.Dec.Versions | sdk/py/cedrive.py:387-389 | the same for versions |
| Sdk.DecodeReply | sdk/py/cedrive.py:342-405 | succeeds exactly where the grammar does, reads every host reply back, and fails on every truncated one |
| Paths.NormShape | src/serve.rs:90-93 | a normalised path is "/" and text with no slash at either end |
| Paths.NormIsExact | src/serve.rs:90-93 | white space of any of the 25 kinds around slashes around text normalises to "/" and the text |
| Paths.NormIdempotent | src/serve.rs:90-93 | normalising again changes nothing if and only if no white space is left at the end |
| Paths.NormChangesTwice | src/serve.rs:90-93 | a path that normalising twice changes |
| Paths.ScopeIsSegmentPrefix | src/serve.rs:200-208 | the string tests succeed if and only if the scope's segment list is a prefix of the path's |
| Paths.ScopeIsPreorder | src/serve.rs:200-208 | scopes are reflexive, transitive and antisymmetric on normalised paths |
| Paths.GuardMatchesNormalised | src/serve.rs:136-141 | on a path without outer white space the guard says exactly whether the normalised path names ".." |
| Paths.GuardIsRightIff | src/serve.rs:136-141 | on any path: it keeps ".." out of the normalised path if and only if it refuses the path or the trimmed path neither begins nor ends with ".." |
| Paths.GuardMissesPaddedDotDot | src/serve.rs:136-141 | a path it admits that normalises to "/.." |
| Paths.DrivePrefixRoundTrip | src/serve.rs:116-133 | decoding a minted prefix gives the drive and the path's core normalised once more: the normalised path if and only if that core has no outer white space |
| Paths.MintedPathReadsBackShorter | src/serve.rs:116-133 | a path whose minted prefix decodes to another one |
| Paths.UncleanScopeDecodes | src/serve.rs:124-133 | a prefix that decodes to a scope with white space inside its slash |
| Paths.DrivePrefixInjective | src/serve.rs:116-119 | two pairs share a prefix string if and only if drives and normalised paths are equal |
| Paths.MintedText | src/serve.rs:116-119 | what a minted prefix looks like, with no path behind the drive for the root |
| Paths.BoundIff | src/serve.rs:124-133 | which prefixes bind which drive and subtree, and that no other binds any |
| Paths.SplitPathRejoins | src/serve.rs:243-252 | only the root has no parent; else parent, slash and a slash-free, non-empty name give the normalised path back, and the name is its last segment |
| Authority.GateIsExact | src/serve.rs:146-196 | the gate opens if and only if the verifier accepts, the leaf binds the requested drive, every path the operation names is in its scope, and none has a ".." segment |
| Authority.GateNeedsAbility | src/serve.rs:42-64 | with a sound verifier, no operation is admitted without read, none that changes the drive without write, no Share without admin |
| Authority.GateOpensIff | src/serve.rs:42-64 | with a verifier that says what the leaf's abilities confer, the gate opens if and only if the leaf covers the named paths, none has a "..", and it confers admin for Share, write for what changes the drive, delete and move included, read for the rest |
| Authority.GateRefusals | src/serve.rs:156-196 | which error every refusal gives, in the order of the checks |
| Authority.ScopeRefusals | src/serve.rs:184-194 | which error a path check gives: ".." at either end comes before the scope |
| Authority.GateAdmitsDotDotIff | src/serve.rs:184-194 | an operation that names ".." once normalised is admitted if and only if the gate's other conditions hold, no raw path has a ".." segment, and a trimmed one begins or ends with ".." |
| Authority.WideningKeepsAccess | src/serve.rs:169-196 | a wider scope on the same drive never closes the gate |
| Authority.ShareAnswers | src/serve.rs:902-922 | when a Share is granted, and which error it gives otherwise |
| Authority.ShareServedIff | src/serve.rs:886-957 | a Share request is granted if and only if the verifier accepts an admin, the grant covers the path, the path has no "..", the audience parses, and an ability asked for is held or none is named |
| Authority.FilterKeepsOrder | src/serve.rs:916-920 | the granted abilities keep the order and the repetitions of those asked for |
| Authority.ShareAttenuates | src/serve.rs:901-957 | a minted grant is for the path on the same drive, inside a clean parent scope, expires at the earlier of the two times, and carries the held abilities asked for, or read |
| Authority.ShareRunStaysUnderRoot | src/serve.rs:886-957 | along any run of Share calls, each judged by the verifier as it is at that moment, every grant keeps the root's drive, ends no later and confers nothing the root does not |
| Authority.SharesStayInsideIffClean | src/serve.rs:904-915 | a scope contains whatever is shared out of it if and only if it has no white space at either end |
| Authority.RunsStayInScopeIffClean | src/serve.rs:904-942 | all grants of all runs of Share calls stay in the root's scope if and only if it has no white space at either end, or a ".." between two slashes of its core |
| Authority.UnusableIffNoPath | src/serve.rs:136-141 | that second condition means, of a scope with outer white space, that no path in it passes the guard |
| Authority.SpacedRootEscapes | src/serve.rs:904-942 | a root capability and one Share whose grant is outside the root's scope |
| Dedup.Inbox.HandleInbound | src/serve.rs:389-413 | an unseen token on `ce-drive/v1` goes to the drive, on `ce-drive/items` to the corpus, a seen one nowhere; the set grows by it, or is emptied first when it holds 8192 |
| Dedup.SeenIsBounded | src/serve.rs:398-404 | the set never exceeds 8192 tokens and is emptied only when it is full |
| Dedup.HandledIffCleared | src/serve.rs:389-405 | a request is handled if and only if the set was emptied since each earlier one with its token |
| Dedup.HandledTwiceIffStraddles | src/serve.rs:389-405 | a run handles a request twice if and only if some token arrives on both sides of a clear |
| Dedup.HandledTwiceMeansCleared | src/serve.rs:398-404 | two handlings of one token are separated by a clear |
| Dedup.HandledExactlyOnce | src/serve.rs:389-413 | with at most 8192 distinct tokens a request is handled if and only if it is the first with its token |
| Dedup.RepeatAfterClearIsHandledAgain | src/serve.rs:398-404 | 8193 different requests, then the first again: it is handled a second time |

## Left out

- Mesh transport, HTTP, event streams, peer discovery, the command line and logging: input and output.
- The capability verifier behind the gate (signatures, revocation, narrowing along a chain): another crate, a parameter here. How its error text becomes an error code is part of that parameter's verdict.
- The move CRDT, the coordination logs and checkpoint compaction, and the formats of journal and state file: other crates.
- Authority.ShareAttenuates: `max_bytes_read` and `max_bytes_write` are carried by a Share request and not put into the minted grant, so nothing is said of them.
- Hosting.Tenant.Write: what the tree makes of an operation is a parameter; only what the handler does around it is modelled. The drive is one the host serves: for any other the reply is NotFound and nothing happens. Metadata operations (SetProp, Tag, Link) record no change and are left out of the feed and Open claims, as are operations merged from peers.
- Hosting.Tenant.Mkdir: the drive is one the host serves.
- Hosting.Tenant.Move: the drive is one the host serves.
- Hosting.Tenant.Copy: the drive is one the host serves.
- Hosting.Tenant.Delete: the drive is one the host serves.
- Hosting.Tenant.OpenCached: the drive is one the host serves.
- Bootstrap.OpenThenPoll: runs without restarts; `Restart` has those, with an Open that no write races with.
- Listing.Ls: the number of requests is a parameter, because a directory that gains names forever can be walked forever.
- Corpus.WalkFacts: the body of an item (title, text, merged links and tags) is an arbitrary function of the file, since kind apps may change between crawls.
- Wire.ParseReq: the host's parser is derived by the serialisation library; it is modelled by the library's rules for bincode 1.x (fixed-width little-endian integers, flags 0 and 1 only, trailing bytes allowed).
- Sdk.DecodeReply: strings are their bytes; the replacement of malformed UTF-8 (a host sends none), Python's collapse of repeated property names into a dictionary and JavaScript's conversion of counts to Number are not modelled.
- SdkAgreement.SdksAgreeIff: the same; properties are compared as lists of pairs.
- JsListing.JsLs: the entries are the host's; how JavaScript reads their text is `Text`'s matter.
- ReadPath.PutObject: how a manifest is written as JSON is a parameter, and the store is taken to answer a post with the hash of what was posted.
- The manifest's `kind`, the descriptions services give of themselves, and the numbers and texts of errors: constants that no property hangs on.
