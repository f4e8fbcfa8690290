# Home Store: a verified model of its storage backend

Home Store serves buckets of objects from a directory tree. This project models the backend that does so
(`internal/storage/fs`), the naming rules and value types it uses (`internal/storage/storage.go`) and the request
handlers that add logic of their own (`internal/api/bucket.go`, `internal/api/list.go`), and proves what the backend
keeps: over every page of a listing, every walk of pages, every run of requests, every point a crash can stop at, and
every interleaving of file-system steps.

`dafny verify dfyconfig.toml` checks the whole project.

## How it is organised

- **Listings.** `Listing` holds the loop of `ListObjects` and the page it computes, defined by filtering, classifying,
  dropping repeats and cutting. `Grouping` says how delimiters roll keys up, and `Pages` what a page shows, key by key
  and byte by byte. `Walking` follows next markers from page to page, `ExactWalks` says which walks return every entry
  once and what would make all of them do so, `WalkLimits` has walks without a delimiter, walks that repeat or stall,
  and walks over a changing bucket, `Tokens` carries markers in continuation tokens, and `BucketWalks` applies all this
  to a bucket of the store.
- **Names and paths.** `BucketNames` is the validator, `Layout` the paths and why they never meet.
- **Files.** `FileSystem` has names, inodes and directories. Its `Disk` performs one system call at a time and remembers
  every tree the calls pass through (`reached`), which is what a crash may leave.
- **The backend.** `Backend` and `Multipart` carry out the requests call by call; each method says exactly what it does
  to the file tree (`Trees`). `Assembly` has the arithmetic of completions, `Handlers` four request handlers: creating
  and deleting a bucket, multi-object delete and ListObjectsV2.
- **The store.** `ObjectStore` says what each request means to a client: a map of buckets, objects and uploads, and the
  temporary files that requests cut short have left there (strays), which clients hardly notice.
  `Refinement` says when a tree stands for a store, `Preservation` and `Directories` that every change to the one is the
  change to the other, and `Service` puts it together for single requests and for whole runs. `Runs` has laws of the
  store itself: the lives of uploads, and what strays do not change. `Histories` says what clients can rely on over runs
  in terms of their own requests: what was put, copied or uploaded in parts is what is read.
- **Steps.** `Crashes` says what puts, renames and completions leave when they stop half-way, which of it stands for a
  store that a new server goes on with, and runs a completion again on what is left. `Interleaving` lets any number of
  requests run side by side, one file-system step at a time; its steps are those `Disk` is made of.

## What is assumed

- A Go string is a string with one character per byte. Integers are unbounded, except in `Atoi`.
- SHA-256 is a function to 32 bytes without collisions among the keys and upload IDs in use (`Collisionless`); MD5 is any
  function. JSON documents decode to what was encoded, which needs valid UTF-8 keys and metadata.
- The clock, the random suffixes of temporary files and upload IDs are parameters. `CreateTemp` picks a free name, as
  exclusive creation ensures, so no stray has it; a new upload ID is not in use in its bucket.
- `sort.Slice` is known by its contract: an ordered permutation.
- The data directory is `/data`, as in the repository's container image, and the file system holds nothing but what the
  backend puts there.
- The buckets of requests are cut from request paths and so contain no slash (`Handlers.PathsAreCut`). Names of buckets
  to create or delete may be anything, also where the backend is called directly.
- One Go type may be several classes here: `FSBackend` is split into `Backend.FSBackend` and `Multipart.MultipartBackend`.
- A request body is the chunks its reads deliver, and whether the read after them fails.

## What came out false, and what holds instead

- *A walk returns every entry exactly once.* Keys rolled up after the first of their group do not move the marker, so a
  page that ends in a common prefix can make the next page repeat it: `WalkLimits.WalkCanRepeat` has such a walk. A walk
  is exact if and only if, counting off the one-shot listing in full pages, no page but the last ends in a common prefix
  that a later key still has (`ExactWalks.WalkIsExactIffNoCut`). The entries of any walk that ends collapse to the
  one-shot listing, and its objects never repeat. A next marker moved past the skipped keys would make every walk exact
  (`ExactWalks.AdvancedWalkIsExact`).
- *A walk ends.* The empty marker means no marker, so a first page of one entry that holds the empty key is asked for
  again and again. A walk ends if and only if the page size is above one, or it starts beyond a marker, or the matching
  keys are at most one, or the first of them is not empty (`Walking.Progresses`, `WalkLimits.WalkEndsIffProgresses`);
  `WalkLimits.WalkCanStall` has a walk that does not. The theorems about walks ask for that condition and no more.
- *The backend's `DeleteBucket` affects one bucket only.* It does not look at the name, which may be any path. It does
  what the store does if and only if the name is valid or nothing at all is where it leads
  (`Directories.DeletesAsExpectedIff`). Without a slash, the invalid names that lead somewhere are `""`, `"."`, `".."`
  and `"bucket_metadata"` (`Directories.SegmentsThatLead`), and those drop every bucket
  (`Directories.ReservedNameDropsBuckets`); with one, `"bucket_metadata/abc"` drops the record of bucket abc
  (`Directories.PathDropsRecord`). The handler, the only caller, refuses all invalid names, so `Service` needs no such
  condition.
- *A bucket without objects can be deleted.* Not while the temporary file of a put cut short lies there, which no request
  ever removes: `Directories.ExistingBucketIsDeletedIffEmpty` has the exact condition. Strays change nothing else for
  clients (`Runs.StraysAreSilent`).
- *A file in place is never written again.* This needs temporary names that requests under way do not share.
  Exclusive creation alone does not give that, because a request removes its temporary name once more after renaming it
  away (`Interleaving.SharedNameIsReachable`). `Interleaving.Enabled` states the condition, and the theorems hold for
  all runs that meet it. A step that does not meet it makes two requests share a name
  (`Interleaving.TakingHeldNameShares`), and if both are uploads with data to come, the file of one can be put in place
  by the other and be written again (`Interleaving.SharedNameBreaks`).

## Model

| member | source | states |
|---|---|---|
| Service.Service.Run | internal/storage/storage.go:11-36 | any run of admissible requests, failing ones included, leaves the disk standing for exactly the store the requests make of buckets, objects and uploads, and reports the store's outcomes one by one |
| Service.Service.Execute | internal/storage/fs/objects.go:22-226 | every single request, whatever its kind, does to the disk what it does to the store, with the same result or the same error |
| Service.Service.CompleteUpload | internal/storage/fs/multipart.go:181-259 | a completion succeeds exactly for a live upload and distinct parts of it from 1 to 10000 under their recorded tags; the object then found is those parts joined in ascending number, with the upload's content type and user metadata and the quoted composite tag |
| Service.Service.ListObjects | internal/storage/fs/objects.go:118-180 | a listing shows exactly the bucket's objects with the prefix beyond the marker, up to the limit: in byte order, rolled up to the first delimiter |
| Service.Service.ListObjectsV2 | internal/api/list.go:50-78 | the same in the words of the query: its prefix, its delimiter, its token else its start-after, and its max-keys from 1 to 1000, else 1000 |
| Service.Service.Fresh | internal/storage/fs/fs.go:49-61 | a new data directory stands for the empty store |
| Service.Service.constructor | internal/storage/fs/fs.go:49-61 | an existing data directory that stands for a store, strays included, is opened as that store, its files untouched |
| Refinement.StoreIsUnique | internal/storage/fs/fs.go:29-46 | the file tree determines the store: nothing is left to interpretation |
| Refinement.DataAndMetadataAgree | internal/storage/fs/objects.go:57-69 | between requests an object's data file exists exactly when its metadata file does, and the metadata has its key and the length of the data |
| Refinement.TemporaryIsFree | internal/storage/fs/objects.go:43-51 | the only temporary files beside objects are strays: every other suffix is free, for every bucket name without a slash |
| Refinement.BucketIsFound | internal/storage/fs/fs.go:172-183 | for every name without a slash, valid or not, a record is found exactly when the bucket exists |
| Refinement.ObjectsAreFound | internal/storage/fs/objects.go:73-97 | reading the files of a key gives the stored object, and the store's error when there is none |
| Refinement.UploadsAreFound | internal/storage/fs/multipart.go:86-111 | an upload is found exactly under its bucket, ID and key |
| Refinement.PartsAreFound | internal/storage/fs/multipart.go:204-233 | the files of an upload directory hold its parts, each with its data, and no others |
| Refinement.ListingIsEnumeration | internal/storage/fs/metadata.go:86-122 | the metadata directory lists each object of the bucket once; its only key order is the bucket's |
| Refinement.PartsAreListed | internal/storage/fs/multipart.go:152-179 | the metadata files of an upload directory are those of its parts, all readable, one per number |
| Refinement.PartsUpToAscend | internal/storage/fs/multipart.go:178-178 | parts are listed in strictly ascending number, each recorded part once |
| Preservation.PutRepresents | internal/storage/fs/objects.go:57-69 | writing an object's two files changes that object and nothing else, in any bucket |
| Preservation.DeleteRepresents | internal/storage/fs/objects.go:99-116 | removing them removes that object and nothing else |
| Preservation.PartRepresents | internal/storage/fs/multipart.go:139-149 | storing or replacing a part changes that part and nothing else |
| Preservation.StartRepresents | internal/storage/fs/multipart.go:70-83 | a new upload's record adds that upload and nothing else |
| Preservation.EndRepresents | internal/storage/fs/multipart.go:261-271 | removing an upload directory removes that upload and nothing else |
| Preservation.CreateBucketRepresents | internal/storage/fs/fs.go:81-101 | a bucket record adds that empty bucket and nothing else |
| Preservation.DropBucketRepresents | internal/storage/fs/fs.go:125-133 | removing a bucket's directory and record removes that bucket with its uploads, and nothing else |
| Preservation.StrayRepresents | internal/storage/fs/objects.go:43-59 | a temporary file left beside objects changes their bucket's strays and nothing else |
| Preservation.UploadStrayRepresents | internal/storage/fs/multipart.go:122-196 | a temporary file left beside parts changes their upload's strays and nothing else |
| Directories.DeletesAsExpectedIff | internal/storage/fs/fs.go:107-136 | the backend's deletion, called directly with any string, does what the store does if and only if the name is valid or there is nothing, neither file nor directory, where its cleaned path leads |
| Directories.SegmentsThatLead | internal/storage/fs/fs.go:29-37 | without a slash, the invalid names that lead somewhere are exactly the reserved ones whose directory exists |
| Directories.PathDropsRecord | internal/storage/fs/fs.go:107-136 | deleting `bucket_metadata/` and the name of a bucket reports success and drops that bucket's record |
| Directories.FilesAreNoBuckets | internal/storage/fs/fs.go:110-123 | deleting a name that leads to a file or through one is an error, neither success nor a missing bucket |
| Directories.ExistingBucketIsDeletedIffEmpty | internal/storage/fs/fs.go:117-123 | an existing bucket can be deleted exactly when it has no object and no stray; unfinished uploads do not keep it |
| Directories.ReservedNameDropsBuckets | internal/storage/fs/fs.go:107-136 | on those names it reports success and every bucket loses its record |
| Runs.LiveUntilEnded | internal/storage/fs/multipart.go:52-271 | over any run an upload accepts operations exactly until its first successful completion or abort or the deletion of its bucket |
| Runs.EndedForEver | internal/storage/fs/multipart.go:86-111 | afterwards it is rejected for ever, as an unknown upload, or for its bucket while that is absent |
| Runs.CompletedOnce | internal/storage/fs/multipart.go:251-257 | no upload is completed twice |
| Runs.UploadStep | internal/storage/fs/multipart.go:113-271 | one request ends an upload, adds a part to it, or leaves it exactly as it is; it adds the part of its bytes, with number, size, time and quoted MD5, in place of any of that number, exactly if it names the upload's key and a number from 1 to 10000 and its body arrives |
| Runs.RenamingMoves | internal/storage/fs/objects.go:213-226 | a rename carries over data, length, content type and user metadata, removes the source, leaves all other keys and uploads alone, and makes the tag the plain MD5 |
| Runs.StraysAreSilent | internal/storage/fs/objects.go:43-51 | every request has the outcome and effect it would have without strays, except that a bucket with nothing but strays is not deleted |
| Runs.StraysAreSilentAlong | internal/storage/fs/fs.go:117-123 | so has every run in which no deletion is refused for strays alone |
| Histories.RefusedIff | internal/storage/storage.go:11-36 | every request is refused exactly for the first of its possible faults, with that error and without effect |
| Histories.PutIsRead | internal/storage/fs/objects.go:22-97 | over any run, an object once put is read with its body, content type, user metadata, time and quoted MD5, until it is written again or deleted |
| Histories.CopyIsRead | internal/storage/fs/objects.go:194-226 | over any run, the destination of a copy or rename is read as what the source was then |
| Histories.RemovedIsNotRead | internal/storage/fs/objects.go:99-116 | over any run, an object deleted or moved away is not found until it is written again |
| Histories.CompletionIsRead | internal/storage/fs/multipart.go:52-259 | over any run, a completed object is read as the bytes last sent for the selected numbers, in ascending order, with the content type and user metadata given when the upload was started and the quoted MD5 of the parts' MD5s with their count |
| Histories.CompletedIffSent | internal/storage/fs/multipart.go:200-225 | a completion of a live upload is accepted exactly for its key and a selection of distinct parts sent, each under the quoted MD5 of its bytes |
| Histories.PartIsTakenIff | internal/storage/fs/multipart.go:113-150 | a part of a live upload is accepted exactly for its key, a number from 1 to 10000, and a body that arrives, and reported with number, size, time and quoted MD5 |
| Histories.PartsAreListedAsSent | internal/storage/fs/multipart.go:152-180 | the parts of a live upload are listed as sent: every number once, ascending, with size and quoted MD5 |
| Crashes.CompletionLosesNothing | internal/storage/fs/multipart.go:191-258 | wherever a completion stops, the upload with all its parts is intact, or the object and its final metadata are in place |
| Crashes.IntactReadsAlike | internal/storage/fs/multipart.go:191-233 | on an intact upload, record, parts and part files are found as they were before the crash |
| Crashes.CompleteAgain | internal/storage/fs/multipart.go:181-259 | running the completion again on what a crash left intact has the outcome of the first one, and puts the same data and tag in place |
| Crashes.RenameLosesNothing | internal/storage/fs/objects.go:194-226 | wherever a rename stops, source or destination can be read in full: data, length, content type, user metadata |
| Crashes.PutStageSpares | internal/storage/fs/objects.go:37-69 | a put that stops anywhere has touched no file of any other object, upload or bucket |
| Crashes.StoppedPutStands | internal/storage/fs/objects.go:43-69 | a put that stops before its data is in place, or with its metadata written, leaves the old or the new store, with at most a stray |
| Crashes.StoppedCompletionStands | internal/storage/fs/multipart.go:191-236 | a completion that stops while it combines parts leaves the store as it was, with a stray in the upload |
| Crashes.StoppedCombinedPutStands | internal/storage/fs/multipart.go:237-246 | so does one that stops while the combined file is copied, with one stray more |
| Interleaving.FilesInPlaceAreWhole | internal/storage/fs/objects.go:37-59 | under every interleaving the file at an object's or part's path holds the whole body of one request for that very path, or whole finished files one after another, put there by a request for that path |
| Interleaving.NeverWrittenAgain | internal/storage/fs/objects.go:57-59 | under every interleaving such a file is never written again |
| Interleaving.ReaderGetsOneBody | internal/storage/fs/objects.go:87-97 | an open reader gets a prefix of the one body that was in place when it opened, and all of it by the end, across overwrites and deletes |
| Interleaving.StepKeeps | internal/storage/fs/multipart.go:123-146 | every step of every put, copy, part upload, completion, delete, read and metadata write keeps the invariant behind these |
| Interleaving.UploadArrives | internal/storage/fs/objects.go:43-59 | an upload that nothing disturbs comes to have its whole body in place |
| Interleaving.CopyArrives | internal/storage/fs/objects.go:194-211 | so does a copy of a file that is open |
| Interleaving.CombinationArrives | internal/storage/fs/multipart.go:200-236 | a combined file that nothing disturbs comes to hold the parts' files in the order they are opened in |
| Interleaving.DocumentArrives | internal/storage/fs/metadata.go:31-52 | a document is empty once it is opened, and then what is written |
| Interleaving.FailureLeavesNothing | internal/storage/fs/objects.go:43-51 | an upload that fails at any point and removes its temporary file leaves all names as they were |
| Interleaving.ReadArrives | internal/storage/fs/objects.go:87-97 | a reader that opens a path and reads to the end has what was there |
| Interleaving.SharedNameIsReachable | internal/storage/fs/objects.go:43-51 | exclusive creation does not keep two requests from sharing a temporary name, because names are removed again after a rename |
| Interleaving.SharedNameBreaks | internal/storage/fs/objects.go:53-59 | of two uploads sharing the name of one's file, the other can send its rest and finish, and the file it puts in place is then written again |
| Interleaving.TakingHeldNameShares | internal/storage/fs/objects.go:43-51 | a new upload that takes a name held by another one brings about just that |
| Interleaving.KindsOfPaths | internal/storage/fs/multipart.go:36-46 | data, temporary and document paths, bucket records included, are three disjoint kinds |
| Backend.FSBackend.PutObject | internal/storage/fs/objects.go:22-70 | exact result, tree, directories and crash stages; afterwards the body is found with what was given and its quoted hexadecimal MD5; a body that fails at any chunk leaves the tree exactly as it was, without the temporary file |
| Backend.FSBackend.CopyBody | internal/storage/fs/objects.go:53-56 | however a body is cut into chunks, file, count and digest are those of its concatenation |
| Backend.FSBackend.Receive | internal/storage/fs/objects.go:43-56 | while a body streams in, only the temporary file differs from the tree before |
| Backend.FSBackend.FinishPut | internal/storage/fs/objects.go:57-69 | the data is renamed into place before the metadata is written; every intermediate tree is named |
| Backend.FSBackend.GetObject | internal/storage/fs/objects.go:72-97 | the metadata, and an open file with the object's data; which error when one is missing |
| Backend.FSBackend.HeadObject | internal/storage/fs/objects.go:182-192 | the metadata, or which error |
| Backend.FSBackend.DeleteObject | internal/storage/fs/objects.go:99-116 | data first, then metadata; nothing at all when the data is missing; an absent key is no error |
| Backend.FSBackend.CopyObject | internal/storage/fs/objects.go:194-211 | the destination gets data, content type and user metadata of the source; the tree is unchanged on every error |
| Backend.FSBackend.RenameObject | internal/storage/fs/objects.go:213-226 | a copy and then a delete, with all trees in between; renaming to the same place only reads |
| Backend.FSBackend.ListObjects | internal/storage/fs/objects.go:118-180 | the page of the metadata in key order, whatever the order of the directory; it shows exactly the matching keys beyond the marker, up to the limit, by byte order and first delimiter |
| Backend.FSBackend.CreateBucket | internal/storage/fs/fs.go:63-104 | exactly the valid, unused names are accepted; only the record is added |
| Backend.FSBackend.DeleteBucket | internal/storage/fs/fs.go:106-136 | refused while the data directory has any entry; otherwise directory and record go |
| Backend.FSBackend.BucketExists | internal/storage/fs/fs.go:172-183 | a bucket exists when its record does |
| Backend.FSMetadataStore.PutMetadata | internal/storage/fs/metadata.go:31-52 | one file is replaced, by way of being empty |
| Backend.FSMetadataStore.GetMetadata | internal/storage/fs/metadata.go:54-72 | the decoded file; a missing and an undecodable file are different errors |
| Backend.FSMetadataStore.DeleteMetadata | internal/storage/fs/metadata.go:74-83 | one file goes; a missing one is no error |
| Backend.FSMetadataStore.ListMetadata | internal/storage/fs/metadata.go:85-122 | each readable metadata file with the prefix once, unreadable ones skipped |
| Backend.SortedIsInKeyOrder | internal/storage/fs/objects.go:132-132 | sorting what the directory gave in any order gives the keys in strict byte order: of two neighbours the first has the smaller byte where they first differ, or ends there |
| Trees.KeyOrderIsUnique | internal/storage/fs/objects.go:128-132 | that order does not depend on the order of the directory |
| Multipart.MultipartBackend.CreateMultipartUpload | internal/storage/fs/multipart.go:52-84 | one record is added under the new ID |
| Multipart.MultipartBackend.ReadUpload | internal/storage/fs/multipart.go:86-111 | an upload is known only under its ID and its key |
| Multipart.MultipartBackend.UploadPart | internal/storage/fs/multipart.go:113-150 | which error comes first; a part is stored or replaced exactly for a number from 1 to 10000 of a known upload and a body that arrives, with its size, time and quoted MD5; a failing body changes nothing |
| Multipart.MultipartBackend.ListParts | internal/storage/fs/multipart.go:152-180 | all parts in strictly ascending number, or an error exactly when a part file does not decode |
| Multipart.MultipartBackend.CompleteMultipartUpload | internal/storage/fs/multipart.go:181-259 | accepted selections become the parts joined, with what the upload was started with and the quoted composite tag, and the upload goes; refused ones leave the tree unchanged; every tree in between is a named stage |
| Multipart.MultipartBackend.CombineParts | internal/storage/fs/multipart.go:204-236 | the loop accepts exactly the selections that are good in any order, and gathers their data and digests in ascending number |
| Multipart.MultipartBackend.FinishCompletion | internal/storage/fs/multipart.go:237-259 | put, final metadata, removal of the upload: in this order |
| Multipart.MultipartBackend.AbortMultipartUpload | internal/storage/fs/multipart.go:261-271 | exactly the files of the upload directory go |
| Assembly.OrderDoesNotMatter | internal/storage/fs/multipart.go:190-190 | the outcome of a completion is the same for every order of the list |
| Assembly.NeighboursTell | internal/storage/fs/multipart.go:207-210 | comparing neighbours after sorting finds exactly the lists with a duplicate number anywhere |
| Assembly.AcceptedSelectionIsBounded | internal/storage/fs/multipart.go:48-50 | an accepted selection has from 1 to 10000 parts, numbered from 1 to 10000 |
| Assembly.AcceptableMayBeJoined | internal/storage/fs/multipart.go:187-215 | accepted are exactly the non-empty selections without duplicates, of numbers from 1 to 10000 that are there under the tags given |
| Assembly.SelectableIsAcceptable | internal/storage/fs/multipart.go:212-225 | for recorded parts the check that a tag decodes never fails |
| Assembly.CompletedObjectIsSound | internal/storage/fs/multipart.go:226-254 | the data are the selected parts' data joined in ascending number, the length the sum of their recorded sizes, content type and user metadata the upload's, and the tag the quoted hexadecimal MD5 of their joined MD5s, a hyphen and the count |
| Assembly.TagSpellsMd5 | internal/storage/fs/multipart.go:142-142 | trimming and decoding a recorded tag gives back the MD5 of the data |
| Handlers.Handler.CreateBucket | internal/api/bucket.go:45-67 | which error comes first: empty name, invalid name, existing bucket; otherwise the record alone is added |
| Handlers.Handler.DeleteBucket | internal/api/bucket.go:71-96 | empty and invalid names are refused before anything is touched; otherwise the backend's outcome |
| Handlers.Handler.DeleteObjects | internal/api/list.go:80-110 | more than 1000 keys are refused; otherwise each key is deleted in turn, and a quiet request reports none |
| Handlers.Handler.ListObjectsV2 | internal/api/list.go:50-78 | an undecodable token is refused; the page answers the query by its own prefix, delimiter, marker and limit; the page's own token asks for what follows it |
| Handlers.RecordStays | internal/api/list.go:99-108 | deleting objects never makes their bucket disappear, whatever its name |
| Handlers.PathsAreCut | internal/api/handler.go:34-57 | the bucket of a request path never has a slash, and every bucket name without one, with any key, is that of its path |
| Listing.ListSorted | internal/storage/fs/objects.go:134-179 | the loop computes the reference page: filter by marker, classify, drop repeats, cut, with its next marker |
| Listing.LimitReached | internal/storage/fs/objects.go:154-157 | when one more distinct entry turns up on a full page, the page is cut there, truncated |
| Pages.PageShows | internal/storage/fs/objects.go:134-179 | a page shows exactly the keys with the prefix beyond the marker, up to its next marker if it is cut: objects that have no delimiter beyond the prefix and the common prefixes of the others, in byte order, at most the limit (1000 for none), cut only when full with something left |
| Pages.RollsIntoPrefix | internal/storage/fs/objects.go:147-150 | a common prefix is the key up to and including the first delimiter beyond the prefix |
| ByteStrings.LessIsByteOrder | internal/storage/fs/objects.go:132-132 | keys are compared byte by byte |
| Grouping.RolledUpAtFirstDelimiter | internal/storage/fs/objects.go:147-150 | a key is rolled up if and only if the delimiter occurs beyond the prefix, and its common prefix ends with the first occurrence |
| Grouping.GroupIsItsPrefix | internal/storage/fs/objects.go:147-150 | the keys rolled up into a common prefix are exactly those that start with it |
| Grouping.GroupsAreContiguous | internal/storage/fs/objects.go:147-153 | between two keys of a group there are only keys of that group |
| Grouping.SeenSetIsLastSeen | internal/storage/fs/objects.go:151-153 | over sorted keys the seen-set is as good as comparing with the last entry |
| Grouping.UntruncatedPagePartitions | internal/storage/fs/objects.go:142-178 | an untruncated page lists each key beyond the marker as an object or under a common prefix, never both, and nothing else |
| Walking.NextMarkerProgresses | internal/storage/fs/objects.go:176-178 | a truncated page's next marker is a stored key strictly above the marker |
| Walking.PageSeparatesEntries | internal/storage/fs/objects.go:134-175 | objects and common prefixes together never exceed the limit, and meet it when truncated |
| Walking.PagePrefixesAscend | internal/storage/fs/objects.go:158-159 | the common prefixes of every page are strictly ascending |
| Walking.WalkCoversReference | internal/storage/fs/objects.go:142-178 | the entries of a walk, adjacent repeats collapsed, are the one-shot listing |
| Walking.WalkReturnsObjectsOnce | internal/storage/fs/objects.go:165-178 | a walk returns every object once, in ascending order |
| Walking.WalkIsShort | internal/storage/fs/objects.go:176-178 | a walk ends within as many pages as there are keys, or one |
| Walking.WalkLength | internal/storage/fs/objects.go:151-160 | the entries a walk returns too many are the groups its pages split |
| ExactWalks.WalkIsExactIffNoCut | internal/storage/fs/objects.go:151-160 | a walk returns every entry exactly once if and only if no full page of the one-shot listing ends in a common prefix that a later key has |
| ExactWalks.AdvancedWalkIsExact | internal/storage/fs/objects.go:154-178 | with a next marker moved past the keys skipped as already listed, every walk would be exact |
| WalkLimits.WalkCanRepeat | internal/storage/fs/objects.go:151-160 | on keys a/1, a/2 and b, page by page, the common prefix a/ is returned twice and then b, while the listing has each once |
| WalkLimits.PlainWalk | internal/storage/fs/objects.go:132-178 | without a delimiter a walk returns exactly the sorted keys, in the least number of pages |
| WalkLimits.EmptyMarkerIffStall | internal/storage/fs/objects.go:176-178 | a truncated page's next marker is empty exactly for a one-entry first page that holds the empty key |
| WalkLimits.WalkEndsIffProgresses | internal/storage/fs/objects.go:143-178 | following next markers reaches a last page unless the first page is such a page, and then never does |
| WalkLimits.WalkCanStall | internal/storage/fs/objects.go:143-143 | on the keys "" and a, one a page, the client sends its first request for ever and never sees a |
| WalkLimits.SurvivesChurn | internal/storage/fs/objects.go:142-178 | whatever is put and deleted between pages, a key that stays is returned exactly once without a delimiter, and covered at least once with one |
| BucketWalks.EveryObjectOnce | internal/storage/fs/objects.go:118-180 | a walk over a bucket returns exactly its matching objects beyond the marker that are not rolled up, each once, in key order |
| BucketWalks.EnumerationEnumerates | internal/storage/fs/objects.go:128-132 | every bucket can be listed in strict key order |
| Tokens.TokenWalkIsMarkerWalk | internal/api/list.go:50-70 | a client that sends tokens back gets the pages of the marker walk |
| Tokens.TokenCarriesMarker | internal/api/list.go:53-60 | a truncated page has a token, never empty, and it overrides start-after |
| Tokens.RefusedTokens | internal/api/list.go:54-59 | exactly which tokens are refused |
| Encoding.LineBreaksAreSkipped | internal/api/list.go:55-55 | a line break anywhere in a token makes no difference |
| Tokens.QueryIsAnswered | internal/api/list.go:50-62 | the options of a query ask for its own prefix, delimiter, marker and limit |
| Tokens.ParsedMaxKeysReadsDecimals | internal/api/list.go:124-136 | decimal limits are read as written, up to 1000 |
| Encoding.Base64UrlRoundTrip | internal/api/list.go:55-69 | unpadded base64url (sections 3.2 and 5 of RFC 4648) gives back every byte string |
| Encoding.UndecodableTokens | internal/api/list.go:55-59 | decoding fails exactly on a foreign character or a single character left over |
| Encoding.Base64UrlSpells | internal/api/list.go:68-69 | three bytes become four digits of the base64url alphabet, as one number of 24 bits |
| Encoding.Base64UrlEnds | internal/api/list.go:68-69 | one or two bytes at the end become two or three digits, filled up with zero bits |
| Encoding.HexRoundTrip | internal/storage/fs/multipart.go:221-225 | hexadecimal digests decode to what was encoded |
| Encoding.HexSpells | internal/storage/fs/objects.go:62-62 | hexadecimal is two lower-case digits for every byte, the higher one first |
| ObjectStore.QuotedIsTag | internal/storage/fs/objects.go:62-62 | a plain tag is the hexadecimal digest between double quotes |
| Encoding.ItoaIsRead | internal/storage/fs/multipart.go:40-46 | decimal part numbers are read back, so no two parts share a name |
| Encoding.ItoaSpells | internal/storage/fs/multipart.go:40-46 | decimal digits come highest first, without leading zeros |
| Encoding.AtoiReads | internal/api/list.go:124-136 | a number is read with its sign, if it fits in 64 bits |
| Layout.PathsAreDistinct | internal/storage/fs/fs.go:29-46 | bucket records, object data, object metadata, upload records and parts never share a path, across all buckets, keys, uploads and numbers |
| Layout.Spelled | internal/storage/fs/fs.go:29-46 | the path of every file, spelled out |
| Layout.TemporaryIsNoFile | internal/storage/fs/multipart.go:122-127 | no temporary file can take the path of a stored file |
| Layout.UnderUpload | internal/storage/fs/multipart.go:28-46 | below an upload's directory lie exactly that upload's files |
| Layout.UnderBucket | internal/storage/fs/fs.go:29-37 | below a bucket's directory lie exactly its objects and uploads, and in its record directory its record |
| BucketNames.IsValidBucketName | internal/storage/storage.go:113-153 | the loops accept exactly the names of 3 to 63 characters over a-z, 0-9, dot and hyphen with alphanumeric ends, no adjacent dots, and not four groups of one to three digits |
| BucketNames.IsIPAddress | internal/storage/storage.go:155-172 | accepts exactly four dot-separated groups of one to three digits |
| BucketNames.ValidNamesAreSafe | internal/storage/fs/fs.go:29-37 | no valid name is a dot segment, contains a slash or is `bucket_metadata` |

## Left out

- Interleaving.FilesInPlaceAreWhole: holds for runs in which requests under way do not share temporary names; the code relies on random suffixes for that.
- Crashes.CompletionLosesNothing: is about one completion with no concurrent request on the same upload or key.
- Agreement of data with metadata, and of part data with part tags, while requests interleave: the code takes no lock and does not give it.
- Recovery from a crash between the two files of a `DeleteObject` or `PutObject`: it can leave metadata behind, or data under old metadata; the model names the trees but claims no recovery. Strays are never cleaned up by the code.
- `ListBuckets`, `ListMultipartUploads` and `GetBucketLocation`: directory scans with nothing beyond what `ListMetadata` shows.
- HTTP routing, XML, status codes, header canonicalisation, attributes and configuration.
- Failures of the operating system other than missing files, failing bodies and, in `DeleteBucket`, files met where a directory is looked for; partial writes of JSON documents are modelled as an empty file.
- Timestamps beyond being copied, directory modes, and the order of directory entries, which the proofs leave open.
- The internals of SHA-256, MD5 and JSON, and keys that are not valid UTF-8.
