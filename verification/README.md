# Liquid2 document library: a verified model

This project models the document library of Liquid2 and proves what it promises: the in-memory
repository with its owner goroutine and copy-on-write transactions, the service operations on
folders, feeds, documents and tags, feed import with adoption of orphaned documents, search with
cursor paging, history and translations, the background job queue with its runner, and, from
Plasma, the arithmetic that turns cumulative token counters into increments.

There are three layers.

* **Values.** `Library.State` is what a reader of the library sees. Each service operation is a
  function from state to state or error (`...Spec`), and the lemmas are about these functions:
  `Library.Inv` is what every reachable state satisfies, the `...Outcomes` modules say what each
  operation comes to without naming its function's parts, `Runs` runs any list of calls.
* **Heap.** `Store` holds the state in heap objects: every Go map, records with content arrays and
  tag slices, nested item maps. `FolderService`, `FeedService`, `DocumentService` and `SearchService` are the
  operations as loops over that object; each is proved to compute its function, whatever the order
  in which a Go map yields its entries. `Transactions.Update` and `Service.Do` add clone and publish.
* **Protocols.** `OwnerLoop` and `JobRunner` are state machines over the single steps of the
  concurrent parts; their theorems hold for every interleaving, cancellation and crash.

| file | content |
|---|---|
| `Prelude`, `Text`, `Sorting`, `Base64` | results, decimal numbers and string order, sorting by a total order, the cursor codec |
| `Entities`, `Library` | records, the state, the writes of a transaction, the invariant |
| `FolderGraph`, `FolderForest`, `FolderTree` | walks on any graph, forests and breadcrumbs, the folder trees |
| `SystemFolders`, `Folders`, `Feeds`, `Tags`, `Documents` | operations as functions, with what they keep |
| `FolderOutcomes`, `FeedOutcomes`, `DocumentOutcomes` | what each operation comes to, field by field, and when it is refused |
| `FeedItems`, `FeedImport`, `ImportProofs`, `ImportOutcomes`, `ImportAgain`, `ImportTrash` | the four-key index, the import, its invariant, which entries and documents it makes and where they lie, importing again, Trash |
| `Runs`, `RunFacts` | whole runs, history, what else holds of every run |
| `DocumentSearch`, `ListingOutcomes`, `Paging` | listings, what they show, and pages |
| `Tables`, `Store`, `Transactions` | the maps and the state on the heap, all-or-nothing updates |
| `FolderService`, `FeedService`, `DocumentService`, `SearchService`, `Answers`, `Service` | the operations on the heap and what they answer with |
| `OwnerLoop` | the goroutine that owns the state, its callers and closers |
| `JobQueue`, `JobRunner` | the job table and the runner |
| `Usage` | token usage |

The clock, timestamp formatting, Unicode trimming, lower-casing and splitting, URL parsing, slugs and
language tags are fields of `Entities.Env` (function values): every theorem holds for every choice of
them. Where the code and a natural reading differ, the model follows the code:

* `nextChildFolderSortOrder` can give a number that depends on map order (`FeedOps.SortOrderDependsOnMapOrder`
  has the exact condition).
* A role-less root folder named Inbox cannot be deleted while it has documents that would go to the
  default folder (`FolderOps.DeleteFolderSucceeds` has the exact condition, `RunFacts.InboxIsKept` a run).
* A usage increment need not satisfy the validity rule of snapshots (`Usage.IncrementIsValidWhen`).
* `attempts` counts claims; it equals the starts of the handler unless the process went down between
  the claim and the start (`JobRunner.EveryRunIsSound`, with a run in `JobRunner.AttemptsExceedStarts`).
* The walks stop at a folder stored under the empty identifier, the search filter does not
  (`FolderGraph.FixpointIsWalk` has the exact condition). No run stores such a folder.
* Enqueueing a job whose kind and payload match an active job under another identifier conflicts,
  by the unique index of migration `0003_active_job_dedupe.sql`.
* The branch of `ensureRootSystemFolder` that restores a role to a folder under the reserved
  identifier (`Library.RolesPlaced` keeps such a folder in its role) and the branch of `RunOnce` for a
  missing handler (`JobRunner.NoHandlerIsMissing`) are modelled but not taken in runs that start from
  an empty store.

`dafny verify dfyconfig.toml` checks the project.

## Model

| member | source | states |
|---|---|---|
| `Runs.Run` | liquid2/internal/app/folders.go:27-185 | Every state that any list of service calls reaches from the empty library, failed calls included and each call with a clock of its own, satisfies the whole invariant: forest of folders, unique sibling names, closed references, exact indexes, grounded translations, unique feed-item keys and links |
| `Runs.CallKeepsInv` | liquid2/internal/app/memory_repository.go:97-106 | Each of the seventeen service operations takes a state with the invariant to one with the invariant; a failed one leaves the state alone |
| `Runs.VersionsAreReplacedImages` | liquid2/internal/app/document_history.go:14-26 | Over any run, version k of a document holds exactly the title and contents that the k-th edit replaced, numbered 1..n, and the history holds nothing else |
| `Runs.NothingLost` | liquid2/internal/app/rescrape.go:44-53 | Whatever title and contents a document had at any point of a run, at the end they are current or are the very next version recorded after that point; older versions stand unchanged |
| `Runs.CallHistory` | liquid2/internal/app/documents.go:70-102 | One call either records exactly one before-image of exactly the document it edits, or changes neither title, contents nor history of any document |
| `Runs.TranslationsStayApart` | liquid2/internal/app/translations.go:93-121 | After any mix of edits, rescrapes and retried translations no two translations of a document share source and language, and each names a source that is among the contents |
| `Runs.FoldersStayAcyclic` | liquid2/internal/app/folders.go:106-134 | After any run no folder reaches itself by parent steps |
| `Runs.FoldersStayApart` | liquid2/internal/app/folders.go:106-134 | After any run siblings have different names, and a system role belongs to at most one folder, a root of its name |
| `Runs.EntriesStayApart` | liquid2/internal/app/memory_feed_jobs.go:82-105 | After any run two entries of one feed have no key in common, no two entries link one document, and the document an entry links is stored |
| `Runs.IndexesStayExact` | liquid2/internal/app/memory_feed_jobs.go:11-80 | After any run the indexes of URLs and of slugs are exact, and the folders and tags that documents and feeds refer to are stored |
| `OwnerLoop.RunsOnceInOrder` | liquid2/internal/app/memory_repository.go:108-143 | In every interleaving each accepted operation is accepted once and run once, in acceptance order, taking the library from one stage to the next: a view leaves it as it is, an update is published exactly if it completes; an answered caller was told what its own operation came to on its stage: what the view read, success, the error of the callback or of the abort, or the report of the panic; a refused or cancelled caller was never accepted |
| `OwnerLoop.NoneAcceptedAfterClosing` | liquid2/internal/app/memory_repository.go:145-159 | Once closing is set, in particular once the loop has taken stop, no further operation is accepted |
| `OwnerLoop.StuckMeansServed` | liquid2/internal/app/memory_repository.go:108-159 | No deadlock: a run that cannot go on without a cancellation has answered every caller, returned from every Close and stopped or idled the loop |
| `OwnerLoop.SomeoneMoves` | liquid2/internal/app/memory_repository.go:108-159 | Until everybody is served some step other than a cancellation is possible |
| `OwnerLoop.RunsAreBounded` | liquid2/internal/app/memory_repository.go:125-143 | No interleaving takes more than eight steps a caller and ten a closer |
| `OwnerLoop.EventKeepsInv` | liquid2/internal/app/memory_repository.go:23-32 | Every lock, channel and work step keeps the protocol invariant: the write lock excludes readers, closing excludes offered operations, each accepted operation has one pending or delivered reply |
| `OwnerLoop.ConcurrentCallsAreARun` | liquid2/internal/app/memory_repository.go:91-172 | Concurrent service calls and views leave the library in a state that a single-threaded run of the accepted calls reaches, with its invariant |
| `OwnerLoop.CallersAreToldTheTruth` | liquid2/internal/app/memory_repository.go:91-143 | In every interleaving an answered caller of a service call was told its error exactly if the call fails on the library that the calls accepted before it had made, and success otherwise; a caller of View was told what it reads there |
| `Transactions.Update` | liquid2/internal/app/memory_repository.go:97-106 | For every callback: all its writes appear if it returns normally, with success for an answer; an abort in the middle is answered with its error, an error with that error, a panic with the report of it, and then the state object is untouched |
| `Transactions.Perform` | liquid2/internal/app/memory_repository.go:161-172 | A list of transaction writes on the heap computes its meaning on values, stopping at the first abort |
| `Transactions.WriteOutcome` | liquid2/internal/app/memory_tx.go:96-130 | Each write of a transaction stores or removes one row with what belongs to it and changes nothing else; only a feed entry can be refused, exactly if another entry of the feed has one of its keys |
| `Store.Store.Clone` | liquid2/internal/app/memory_clone.go:3-11 | The clone shows the same library in maps and cells that are all new |
| `Tables.Table.Clone` | liquid2/internal/app/memory_clone.go:18-51 | A copying loop: the entries of a map, in map order, go into a map of the clone's own |
| `Store.Store.CloneFoldersAndTags` | liquid2/internal/app/memory_clone.go:30-42 | Folders, tags and tag slugs are copied into new maps |
| `Store.Store.CloneFeeds` | liquid2/internal/app/memory_clone.go:44-51 | Feeds and feed URLs are copied into new maps |
| `Store.DocumentTable.Clone` | liquid2/internal/app/memory_clone.go:13-28 | The document map is copied record by record into fresh records, content arrays and tag arrays |
| `Store.ItemTables.Clone` | liquid2/internal/app/memory_clone.go:52-58 | The nested feed-item maps are copied entry by entry into new maps |
| `Store.Store.Publish` | liquid2/internal/app/memory_repository.go:97-106 | Publishing makes the state object show the pending state |
| `Store.DocumentRecord.Clone` | liquid2/internal/app/document_views.go:117-128 | A cloned record shares neither contents nor tags with the original |
| `Store.DocumentRecord.RemoveTag` | liquid2/internal/app/tag_relationships.go:69-77 | Filtering in place over the backing array leaves exactly the other values in order |
| `Store.Store.DeleteTag` | liquid2/internal/app/memory_tx.go:120-129 | Removes the tag, its slug and the tag from every document, in whatever order the map yields them |
| `Store.DocumentTable.StripAll` | liquid2/internal/app/memory_tx.go:120-129 | The in-place filter over all documents touches no other cell and gives each document exactly its other tags |
| `Store.Store.NextID` | liquid2/internal/app/memory_repository.go:186-189 | Advances the counter and builds the identifier from the advanced value |
| `Store.Store.Document` | liquid2/internal/app/memory_tx.go:11-17 | Returns a copy in fresh cells, or nothing |
| `Store.Store.Documents` | liquid2/internal/app/memory_tx.go:19-25 | Lists every stored document once, in some order |
| `Store.Store.TagHasDocuments` | liquid2/internal/app/memory_tx.go:59-66 | Answers whether some document bears the tag |
| `Store.Store.PutDocument` | liquid2/internal/app/memory_tx.go:100-103 | Stores a copy: later changes to the argument stay outside |
| `Store.Store.PutFeed` | liquid2/internal/app/memory_feed_jobs.go:65-72 | Stores the feed, drops the old URL from the index and enters the new one |
| `Store.Store.DeleteFeed` | liquid2/internal/app/memory_feed_jobs.go:74-80 | Removes the feed, its URL and its items, and nothing else |
| `Store.Store.PutFeedItem` | liquid2/internal/app/memory_feed_jobs.go:82-93 | Stores the item, or aborts exactly if another item of the feed shares one of the four keys |
| `Store.Store.PutDocumentVersion` | liquid2/internal/app/memory_document_versions.go:12-15 | Appends to the history of the document |
| `Service.Do` | liquid2/internal/app/memory_repository.go:97-106 | A service call on the heap, from clone to publication, takes the library to the state that the call comes to, or answers with its error and leaves the state object untouched; no cell a reader could hold is written |
| `Library.NewIDFresh` | liquid2/internal/app/memory_repository.go:186-189 | A drawn identifier is new to every state it is drawn in, and passed right after |
| `Library.NewIDsDiffer` | liquid2/internal/app/memory_repository.go:186-189 | Identifiers drawn at different counter values differ, whatever prefixes and clocks do |
| `FolderGraph.WalkIsClearReach` | liquid2/internal/app/system_folders.go:88-104 | On every folder graph, cyclic or not, the ancestor walk finds exactly what parent steps reach without passing the empty identifier |
| `FolderGraph.WalkIsReachability` | liquid2/internal/app/system_folders.go:88-104 | The walk agrees with reachability by parent steps for all folders of a graph exactly if a folder stored under the empty identifier, should there be one, leads nowhere else |
| `FolderGraph.RoleWalkIsExact` | liquid2/internal/app/system_folders.go:67-86 | For all folders and roles the role walk answers whether a folder at or above carries the role, exactly if no folder at or above the empty identifier carries one |
| `FolderGraph.FolderFilterIDs` | liquid2/internal/app/document_search.go:92-117 | The descendant fixpoint terminates on every graph and every map order with the filter folder and all stored folders below it |
| `FolderGraph.FixpointIsWalk` | liquid2/internal/app/document_search.go:92-117 | On every graph: the descendant fixpoint and the ancestor walk agree on all stored folders and all filters exactly if a folder stored under the empty identifier, should there be one, leads nowhere else |
| `FolderForest.WalkToAncestor` | liquid2/internal/app/system_folders.go:88-104 | The loop with its seen set computes the ancestor walk and terminates on every graph |
| `FolderForest.WalkToRole` | liquid2/internal/app/system_folders.go:67-86 | The loop computes the role walk and terminates on every graph |
| `FolderForest.TrailReachesRoot` | liquid2/internal/app/document_folder_path.go:3-31 | In a forest an upward walk climbs by parent steps to a root: the cycle break and the missing-folder exit are never taken |
| `FolderForest.DocumentFolderPath` | liquid2/internal/app/document_folder_path.go:3-31 | On a forest the breadcrumb path runs from a root to the folder, each segment the parent of the next; on any graph it terminates and names stored folders |
| `FolderForest.Reparent` | liquid2/internal/app/folders.go:44-64 | Moving a folder under one that is not below it keeps the forest |
| `FolderTree.TreesListEveryFolderOnce` | liquid2/internal/app/folders.go:136-144 | The trees list every folder exactly once, each below its parent, siblings in order at every level |
| `FolderTree.TreeIsExact` | liquid2/internal/app/folders.go:165-173 | The tree of a folder holds exactly the folders at or below it, each once, in order |
| `FolderTree.SiblingsStandInOrder` | liquid2/internal/app/folders.go:175-185 | In such trees siblings stand by sort order, then name, then identifier, at every level |
| `FolderTree.TreesIgnoreMapOrder` | liquid2/internal/app/folders.go:136-185 | The trees do not depend on the order in which the map yields the folders |
| `FolderTree.BuildTrees` | liquid2/internal/app/folders.go:136-144 | Index, recursion and sort compute those trees; the recursion ends because heights grow |
| `FolderTree.NewIndex` | liquid2/internal/app/folders.go:152-163 | One pass builds the table, the children lists and the roots |
| `FolderTree.IndexAnswers` | liquid2/internal/app/folders.go:152-163 | The index answers with the children of each folder in list order |
| `FolderService.EnsureRole` | liquid2/internal/app/system_folders.go:28-52 | Found by role, by reserved identifier, by name, or created: the loops over the folder map compute the specification whatever the map order |
| `FolderService.FindRole` | liquid2/internal/app/system_folders.go:54-61 | The first match in map order is the only one |
| `FolderOutcomes.EnsuredOutcome` | liquid2/internal/app/system_folders.go:28-52 | Asked for a role: its holder, and nothing changes; if there is none, exactly one folder takes the role: the root that has its name, or a new root under the reserved identifier with sort order 0, 1000 or 9000 |
| `SystemFolders.RoleHolderUnique` | liquid2/internal/app/system_folders.go:54-61 | At most one folder holds a system role |
| `SystemFolders.EnsuredInKeepsInv` | liquid2/internal/app/system_folders.go:28-52 | Putting a role in place keeps the folder invariant, every parent pointer and every name, and adds at most the reserved folder |
| `SystemFolders.EnsuredSettles` | liquid2/internal/app/document_folder_default.go:36-59 | Asking again, at any time, changes nothing and names the same folder |
| `SystemFolders.PlacedOutsideTrash` | liquid2/internal/app/document_folder_default.go:18-34 | A document is never placed in or below Trash, nor Feeds unless it comes from a feed |
| `FolderService.PlaceDocument` | liquid2/internal/app/document_folder_default.go:18-34 | Computes the placement rule, with its three errors |
| `FolderOutcomes.PlacementOutcome` | liquid2/internal/app/document_folder_default.go:18-34 | A blank folder means Inbox; a named one is taken exactly if it is stored, does not reach a Trash folder by parent steps and, unless feeds are allowed, no Feeds folder, with the error for each |
| `FolderService.DefaultFolderForDelete` | liquid2/internal/app/document_folder_default.go:61-83 | Computes where documents of a deleted folder go, with its conflicts |
| `SystemFolders.DefaultForDeleteSettles` | liquid2/internal/app/document_folder_default.go:61-83 | Asked again for the next document, it names the same folder and changes nothing |
| `Answers.CreateFolder` | liquid2/internal/app/folders.go:27-42 | Computes the creation rule, with the error of the first failing check, and answers with the tree of the new folder |
| `Answers.UpdateFolder` | liquid2/internal/app/folders.go:44-64 | Computes the update rule with its errors and answers with the tree of the folder: it and all folders below it, in order |
| `FolderService.ValidateFolder` | liquid2/internal/app/folders.go:106-134 | Checks name, parent, descendant, Trash and sibling name in the order of the code, for every map order |
| `FolderOps.CreateFolderKeepsInv` | liquid2/internal/app/folders.go:27-42 | Creating keeps forest, sibling uniqueness and roles, under a new identifier |
| `FolderOps.UpdateFolderKeepsInv` | liquid2/internal/app/folders.go:44-64 | Moving and renaming keep forest, sibling uniqueness and roles |
| `FolderOutcomes.AcceptedWhen` | liquid2/internal/app/folders.go:106-134 | A folder can be called and placed as asked exactly if the name is not blank, no sibling has it, and the parent is stored, is not the Trash and does not reach the folder by parent steps |
| `FolderOutcomes.RefusedWith` | liquid2/internal/app/folders.go:106-134 | Any other input meets the first complaint that applies |
| `FolderOutcomes.CreateFolderOutcome` | liquid2/internal/app/folders.go:27-42 | A folder is created exactly if the input is acceptable, with the parent, name and sort order asked for, and nothing else changes |
| `FolderOutcomes.UpdateFolderOutcome` | liquid2/internal/app/folders.go:44-64 | A folder is changed exactly if it is stored, is no system folder and the input is acceptable: it gets parent, name and sort order and keeps identifier, role and creation time; nothing else changes |
| `FolderOutcomes.ListFoldersOutcome` | liquid2/internal/app/system_folders.go:14-18 | Listing leaves a holder of each role in place, and every folder with its name, parent and role |
| `FolderService.ListFolders` | liquid2/internal/app/folders.go:20-25 | Puts the system folders in place and returns trees that hold every folder once, in order |
| `FolderService.DeleteFolder` | liquid2/internal/app/folders.go:66-104 | The loops over children, documents and feeds compute the deletion rule, whatever the map orders |
| `FolderService.MoveDocuments` | liquid2/internal/app/folder_delete_documents.go:3-23 | Over a copy of the documents in map order, each document of the folder goes to one target; an error appears exactly when some document needs a target that cannot be had |
| `FolderOps.DeleteFolderOutcome` | liquid2/internal/app/folders.go:66-104 | After success nothing refers to the folder; exactly its documents, soft-deleted ones included, moved to one folder: its parent under move_to_parent, otherwise the reserved default folder, else another root named Inbox, else a new Inbox; exactly its feeds fill the parent under move_to_parent and nothing otherwise; every other folder, document and feed is as before |
| `FolderOps.DeleteFolderKeepsInv` | liquid2/internal/app/folders.go:66-104 | Deletion keeps the whole invariant |
| `FolderOps.DeleteFolderSucceeds` | liquid2/internal/app/folders.go:66-104 | Exactly when a folder can be deleted: no role, no children, a known action if it has documents or feeds, and not a root named Inbox whose documents would go to the default folder |
| `FolderOutcomes.DeleteFolderRefusedWith` | liquid2/internal/app/folders.go:66-104 | Which complaint a folder that cannot be deleted meets |
| `RunFacts.InboxIsKept` | liquid2/internal/app/document_folder_default.go:36-83 | A run of two calls after which a folder without role and without children cannot be deleted: a root folder named Inbox with a document in it |
| `FolderOps.DefaultTargetExists` | liquid2/internal/app/document_folder_default.go:61-83 | The default target exists exactly unless the folder is a role-less root named Inbox |
| `FeedOps.SearchFree` | liquid2/internal/app/feed_folders.go:43-63 | The unbounded search ends after at most as many tries as names are used, with the first free suffix, by pigeonhole over distinct candidates |
| `FeedOps.UniqueFeedFolderName` | liquid2/internal/app/feed_folders.go:43-63 | The name returned is used by no sibling |
| `FeedOutcomes.UniqueNameIsFresh` | liquid2/internal/app/feed_folders.go:43-63 | The name is the wanted one if no sibling has it, otherwise the wanted one with the least number from 2 on that no sibling bears |
| `FeedOps.CandidatesDiffer` | liquid2/internal/app/feed_folders.go:57-62 | Different suffixes give different names |
| `FeedOps.SortsAfterChildren` | liquid2/internal/app/feed_folders.go:65-73 | The new folder sorts after every child of the parent |
| `FeedOps.SortOrderDependsOnMapOrder` | liquid2/internal/app/feed_folders.go:65-73 | For every folder table and parent: the number is the same for every order in which the map can yield the children exactly if no child that reaches 10 comes less than ten before the last child |
| `FeedOps.NumberWithoutClash` | liquid2/internal/app/feed_folders.go:65-73 | Without such a child the number is ten above the last child, and 10 if no child reaches 10 |
| `FeedOps.ClashExample` | liquid2/internal/app/feed_folders.go:65-73 | A folder table with children at 15 and 20: met in this order they give 25, in the other order 30 |
| `FeedService.NextChildSortOrder` | liquid2/internal/app/feed_folders.go:65-73 | The loop computes the number for the order in which the map yields the children; it lies above every child |
| `FeedService.CreateFeed` | liquid2/internal/app/feeds.go:28-55 | Computes the creation rule for a sort order that some order of the map gives, with its conflicts, and answers with the stored feed |
| `FeedOps.CreateFeedOutcome` | liquid2/internal/app/feeds.go:28-55 | A new feed fills a new folder under Feeds; documents, items, tags and other feeds stay |
| `FeedOps.CreateFeedKeepsInv` | liquid2/internal/app/feeds.go:28-55 | Creation keeps the invariant, the URL index included, under a new identifier |
| `FeedOutcomes.CreateFeedSucceeds` | liquid2/internal/app/feeds.go:28-55 | A feed is created exactly if its URL is usable and no feed has it and no folder is asked for, with the error for each |
| `FeedOutcomes.CreateFeedResult` | liquid2/internal/app/feeds.go:28-55 | The feed has URL, title and state as asked, was never checked, and fills a new folder right below Feeds, called after title or host by a fresh name; nothing else changes but Feeds being put in place |
| `FeedService.UpdateFeed` | liquid2/internal/app/feeds.go:57-91 | Computes the update rule with its errors and answers with the stored feed |
| `FeedOps.UpdateFeedKeepsInv` | liquid2/internal/app/feeds.go:57-91 | Changing URL or folder keeps the URL index an exact inverse |
| `FeedOutcomes.UpdateFeedSucceeds` | liquid2/internal/app/feeds.go:57-91 | A feed is changed exactly if it is stored, its new URL is usable and no other feed has it, and its new folder is stored and outside Trash |
| `FeedOutcomes.UpdateFeedResult` | liquid2/internal/app/feeds.go:57-91 | What was asked for is as asked, everything else about the feed and every other feed is as before |
| `FeedOutcomes.FeedFolderOutcome` | liquid2/internal/app/feeds.go:120-132 | The folder a feed can be given: none when blank, otherwise a stored one outside Trash, with the error for each |
| `FeedOps.FeedByURLExact` | liquid2/internal/app/memory_feed_jobs.go:11-17 | The lookup by URL finds a feed exactly when some feed has the URL |
| `FeedService.DeleteFeed` | liquid2/internal/app/feeds.go:93-103 | Computes the deletion rule |
| `FeedOps.DeleteFeedKeepsInv` | liquid2/internal/app/feeds.go:93-103 | Deletion takes URL and items along, keeps documents and the invariant |
| `FeedOutcomes.DeleteFeedResult` | liquid2/internal/app/feeds.go:93-103 | Exactly the row, the URL and the items of the feed go |
| `FeedItems.FeedItemSet.constructor` | liquid2/internal/app/feed_item_set.go:10-21 | The four sets hold exactly the non-empty keys of the stored items |
| `FeedItems.FeedItemSet.Add` | liquid2/internal/app/feed_item_set.go:30-35 | Adds the four keys, empty ones left out |
| `FeedItems.FeedItemSet.Has` | liquid2/internal/app/feed_item_set.go:23-28 | Answers from the four sets |
| `FeedItems.IndexAgreesWithScan` | liquid2/internal/app/feed_item_set.go:23-66 | On stored items the four-set lookup answers exactly whether a stored item would collide with the new one |
| `FeedItems.KeysGrow` | liquid2/internal/app/feed_item_set.go:30-42 | Adding an item to table and index keeps them in step |
| `FeedImport.OrphanIndexUnique` | liquid2/internal/app/feed_document_adoption.go:10-24 | The sorted snapshot of documents does not depend on the map order |
| `FeedImport.SortGivesIndex` | liquid2/internal/app/feed_document_adoption.go:10-24 | Sorting any listing of the documents gives that snapshot |
| `FeedService.StartImport` | liquid2/internal/app/feed_import.go:18-21 | Index, linked set and key set start in the same place whatever the map orders |
| `FeedService.LinkedFeedDocuments` | liquid2/internal/app/feed_document_adoption.go:80-88 | The nested loops collect exactly the documents that items of stored feeds point to |
| `FeedService.OrphanDocuments.Adopt` | liquid2/internal/app/feed_document_adoption.go:26-44 | Adopts the first record that matches and is unlinked, moving it unless it lies in Trash, and updates its own copy |
| `FeedService.OrphanDocuments.Find` | liquid2/internal/app/feed_document_adoption.go:26-44 | Finds the first record that matches and is unlinked |
| `FeedService.CreateItemDocument` | liquid2/internal/app/feed_import.go:99-120 | Computes the creation of a document for an item |
| `FeedService.ImportFeedItems` | liquid2/internal/app/feed_import.go:9-54 | The loop over store, index and key set computes the import |
| `FeedService.ImportItem` | liquid2/internal/app/feed_import.go:22-41 | One round computes one step: skipped, adopted or created |
| `FeedService.FeedItemByDocumentID` | liquid2/internal/app/memory_feed_jobs.go:27-36 | The scan in map order returns the one item that links the document, if any |
| `Library.ItemByDocumentUnique` | liquid2/internal/app/memory_feed_jobs.go:27-36 | No two items of any feeds link one document |
| `ImportProofs.StepKeepsInv` | liquid2/internal/app/feed_import.go:22-41 | A round keeps store, snapshot, links, counts and keys in step and accounts for one item |
| `ImportProofs.ImportFailsOnlyForFolder` | liquid2/internal/app/feed_import.go:9-54 | In every sound state an import fails only because the feed is missing or disabled or because new documents cannot be placed in its folder, with that error; the duplicate abort of PutFeedItem never fires |
| `ImportProofs.LinkItem` | liquid2/internal/app/memory_feed_jobs.go:82-105 | Storing an item whose keys are unseen and whose document is unlinked never aborts and keeps the invariant |
| `ImportProofs.ImportOutcome` | liquid2/internal/app/feed_import.go:9-54 | Imported plus skipped is the number of items; documents grow by imported minus adopted; the feed gains one item an import; documents that were there change at most folder and timestamp; the invariant holds |
| `ImportOutcomes.ImportPlacesDocuments` | liquid2/internal/app/feed_document_adoption.go:26-78 | A document that was there and that a new entry of the import links lies in the feed's folder afterwards, if the feed has one, unless it lay in Trash, where it stays; every other document lies where it did |
| `ImportOutcomes.ImportMakesEntries` | liquid2/internal/app/feed_import.go:9-54 | Every new entry comes from one of the items: it carries the item's keys, and its document is the oldest orphan known under one of the item's URLs, or, there being none, a new unread document with the item's title, URLs and content in the feed's folder or Inbox; every old entry is as before and the feed was checked now |
| `ImportAgain.ImportCoversItems` | liquid2/internal/app/feed_import.go:22-41 | After an import the feed has an entry with a key in common for every item with a title and a URL |
| `ImportTrash.ImportKeepsTrash` | liquid2/internal/app/feed_document_adoption.go:67-78 | A document that lies in Trash before an import lies there afterwards, in the same folder, although the import moves what it adopts and may put Inbox in place |
| `ImportTrash.SameRoleWalk` | liquid2/internal/app/system_folders.go:67-86 | A forest that only grows, keeping parents and holders of a role, answers the role walk as before |
| `ImportAgain.ReimportChangesNothing` | liquid2/internal/app/feed_import.go:9-54 | Importing again right after an import, with whatever clock, any list drawn from its items imports nothing; only the feed's timestamps move |
| `RunFacts.ReimportAnyTimeLater` | liquid2/internal/app/feed_import.go:9-54 | The same at any later point of a run, whatever calls came between, as long as the feed was not deleted |
| `ImportAgain.ReimportAfterRecreation` | liquid2/internal/app/feed_document_adoption.go:26-88 | Import into an empty feed without orphans, delete the feed, create it anew, import again: it succeeds with the same counts, creates no document, links every URL to the same document, and leaves the linked documents in the folder of the new feed, those in Trash excepted |
| `ImportAgain.FindsItsDocument` | liquid2/internal/app/feed_document_adoption.go:46-65 | Among abandoned documents adoption finds exactly the one made for the URL |
| `TagOps.NormalizeTagIDs` | liquid2/internal/app/tag_relationships.go:5-23 | The loop computes the normalized list or the error of the first unknown tag |
| `TagOps.NormalizedTagsSound` | liquid2/internal/app/tag_relationships.go:5-23 | The list holds exactly the non-blank known tags asked for, each once |
| `DocumentOutcomes.TagListOutcome` | liquid2/internal/app/tag_relationships.go:5-23 | A tag list is accepted exactly if every identifier in it is blank or names a tag; the tags keep the order in which they are first asked for |
| `TagOps.RemovedTagIDs` | liquid2/internal/app/tag_relationships.go:25-43 | Exactly the tags the new list dropped, each once |
| `DocumentService.DeleteUnusedTags` | liquid2/internal/app/tag_relationships.go:45-58 | Deletes exactly those of the tags that no document bears, with their slugs, and says how many |
| `TagOps.PruneKeepsInv` | liquid2/internal/app/tag_relationships.go:45-58 | Pruning keeps the slug index exact and every document tag stored |
| `TagOps.PruneTwice` | liquid2/internal/app/tag_relationships.go:45-58 | The order of deletions does not matter |
| `DocumentService.CreateTag` | liquid2/internal/app/tags.go:18-36 | Computes the creation rule with its errors |
| `TagOps.CreateTagKeepsInv` | liquid2/internal/app/tags.go:18-36 | A new tag keeps the slug index an exact inverse, under a new identifier |
| `DocumentOutcomes.CreateTagOutcome` | liquid2/internal/app/tags.go:18-36 | A tag is created exactly if name and slug are not blank and no tag has the slug, with name, slug and time; nothing else changes |
| `Answers.ReplaceDocumentTags` | liquid2/internal/app/documents.go:144-166 | Replaces the list and prunes what it dropped and nobody bears; answers with the description of the document |
| `DocumentOps.ReplaceTagsKeepsInv` | liquid2/internal/app/documents.go:144-166 | Replacing tags keeps the invariant |
| `DocumentOutcomes.ReplaceTagsOutcome` | liquid2/internal/app/documents.go:144-166 | The document bears the tags asked for; of the tags it bore exactly those that no document bears any more are gone, with their slugs |
| `Answers.CreateDocument` | liquid2/internal/app/documents.go:32-59 | Computes the creation rule; answers with the description of the document |
| `DocumentOutcomes.CreateDocumentOutcome` | liquid2/internal/app/documents.go:32-59 | A document with the title and kind asked for, unread, in Inbox, with nothing else to it; a blank title is refused |
| `Answers.IngestDocument` | liquid2/internal/app/ingestion.go:10-47 | Computes bookmark and scraped-article creation with their errors in order; answers with the description of the document |
| `DocumentOps.IngestKeepsInv` | liquid2/internal/app/ingestion.go:104-146 | A new document in a stored folder with stored tags keeps the invariant, under a new identifier, and touches no other document or history |
| `DocumentOutcomes.IngestOutcome` | liquid2/internal/app/ingestion.go:10-47 | The new document has title, URLs and tags as asked, lies where the placement rule puts it, and has its body as its only content if it was scraped and none if it is a bookmark; nothing else changes |
| `DocumentOutcomes.IngestFails` | liquid2/internal/app/ingestion.go:104-129 | Which requests are refused, and with which error: title, placement, tags, content, in this order |
| `Answers.UpdateDocument` | liquid2/internal/app/documents.go:70-102 | Edits title and folder and records the before-image exactly if the title changed; answers with the description of the document |
| `DocumentOps.UpdateDocumentKeepsInv` | liquid2/internal/app/documents.go:70-102 | Editing keeps the invariant |
| `DocumentOutcomes.UpdateDocumentOutcome` | liquid2/internal/app/documents.go:70-102 | The document gets the title and the folder asked for and keeps everything else; a title that is really new is recorded, with the whole before-image, and an unchanged one is not |
| `DocumentOutcomes.UpdateDocumentFails` | liquid2/internal/app/documents.go:70-102 | Which edits are refused, and with which error |
| `DocumentService.RecordVersion` | liquid2/internal/app/document_history.go:14-26 | Appends the record as it stands, with the next sequence number |
| `DocumentService.DeleteDocument` | liquid2/internal/app/documents.go:104-117 | Marks the document deleted; answers with the time of the deletion |
| `DocumentOutcomes.DeleteDocumentOutcome` | liquid2/internal/app/documents.go:104-117 | A stored document gets the time of its deletion, and nothing else changes |
| `Answers.TrashDocument` | liquid2/internal/app/document_trash.go:8-31 | Computes the move to Trash, a no-op for what lies there; answers with the description of the document |
| `DocumentOps.TrashedIsInTrash` | liquid2/internal/app/document_trash.go:8-31 | Afterwards the document lies in Trash |
| `DocumentOps.TrashOnlyMoves` | liquid2/internal/app/document_trash.go:8-31 | Nothing but folder and timestamp of this one document changes, besides the folder table |
| `DocumentOutcomes.TrashDocumentOutcome` | liquid2/internal/app/document_trash.go:8-31 | A document that lies in Trash stays, any other stored and undeleted one goes to the Trash folder itself |
| `DocumentSearch.TrashedLeavesListings` | liquid2/internal/app/document_views.go:65-101 | A document moved to Trash is gone from every listing that neither names a folder nor asks for Trash |
| `Answers.ReplaceRescrapedContent` | liquid2/internal/app/rescrape.go:22-60 | Takes the before-image as a copy, edits in place, records and stores; answers with the description of the document |
| `DocumentService.UpdateExtracted` | liquid2/internal/app/rescrape.go:90-105 | The loop rewrites the first extracted body in place or appends one |
| `DocumentOps.RescrapeTouchesOneBody` | liquid2/internal/app/rescrape.go:90-105 | Only one body changes, the first extracted one; title, tags and every other content keep place and value |
| `DocumentOps.RescrapeKeepsInv` | liquid2/internal/app/rescrape.go:22-60 | Rescraping keeps translations grounded and apart, and the invariant |
| `DocumentOutcomes.RescrapeOutcome` | liquid2/internal/app/rescrape.go:22-60 | The before-image is recorded; then the first extracted content, or a new last one, has body and format as given and no source, the canonical URL is the one found and the source URL too unless none was found; nothing else changes |
| `DocumentOutcomes.RescrapeFails` | liquid2/internal/app/rescrape.go:22-88 | Which requests are refused, and with which error |
| `DocumentService.PrepareTranslation` | liquid2/internal/app/translations.go:93-121 | Computes source and language, or the first error; answers with the document and the source content |
| `DocumentOutcomes.PrepareOutcome` | liquid2/internal/app/translations.go:93-121 | A translation can be prepared exactly if the document is stored and not deleted, the source is one of its contents, the language is a known one and this translation is not there yet, with the error for each |
| `Answers.DocumentDetail` | liquid2/internal/app/document_views.go:5-16 | Metadata published as the one linked feed item says, the path from a root to the folder, the contents, and exactly the document's tags in order |
| `Answers.DocumentTags` | liquid2/internal/app/document_views.go:44-57 | The known tags of the list, sorted by slug and identifier |
| `Answers.TagsStandInOrder` | liquid2/internal/app/document_views.go:44-57 | Tags so sorted stand by slug, then identifier |
| `DocumentService.FindTranslation` | liquid2/internal/app/translations.go:141-153 | The loop answers whether the translation is there |
| `Answers.AppendTranslatedContent` | liquid2/internal/app/translations.go:43-84 | Computes the append, before-image first; answers with the description of the document |
| `DocumentOps.AppendTranslationKeepsInv` | liquid2/internal/app/translations.go:43-84 | Appending keeps translations grounded and apart, and the invariant |
| `DocumentOutcomes.AppendTranslationOutcome` | liquid2/internal/app/translations.go:43-84 | The before-image is recorded; then one content stands behind the others, a translation with body, format, language and source as given; nothing else changes |
| `DocumentOps.RepeatedTranslationRefused` | liquid2/internal/app/translations.go:114-116 | Appending again for the same source and language is refused, however often a job is retried |
| `DocumentSearch.OrderIsTotal` | liquid2/internal/app/document_search.go:159-200 | Each of the four sort orders is the one its name says (score, creation, rating or change, all descending, then change, creation and identifier) and a strict total order on documents |
| `DocumentSearch.ListingIsExact` | liquid2/internal/app/document_search.go:50-90 | The listing holds exactly the documents that pass filters and search, each once; what stands earlier has the better score, was created later, has the better rating or was changed later, as the sort asks, and ties go to the later change, creation and identifier |
| `ListingOutcomes.ListedWhen` | liquid2/internal/app/document_views.go:65-101 | A document is listed exactly if it has the status, kind, rating and tag asked for, is not deleted unless that is asked for, lies in the folder named or below it by parent steps, or, no folder being named, does not reach Trash, and has every word of the query in title or text |
| `ListingOutcomes.ListedScore` | liquid2/internal/app/document_search.go:127-148 | The score of a listed document is a hundred for each word found in the title and ten for each found in the text |
| `ListingOutcomes.SearchesContents` | liquid2/internal/app/document_search.go:150-157 | The text searched has a word exactly if some content has it: the separators neither hide a word nor make one up |
| `ListingOutcomes.RequestOutcome` | liquid2/internal/app/document_search.go:22-48 | Which requests are refused, and which sort and page size the others ask for |
| `DocumentSearch.ListingIgnoresMapOrder` | liquid2/internal/app/document_search.go:50-90 | The listing does not depend on the order in which the map yields the documents |
| `DocumentSearch.CollectHits` | liquid2/internal/app/document_search.go:59-71 | The filtering loop computes the hits and their number |
| `DocumentSearch.FoundWhenEveryTokenOccurs` | liquid2/internal/app/document_search.go:127-148 | A text is found exactly when every token occurs in title or body, with a score between 10 and 110 a token |
| `DocumentSearch.ScoreDocument` | liquid2/internal/app/document_search.go:127-148 | The loop over tokens computes the score, or nothing when a token is missing |
| `Paging.FindStart` | liquid2/internal/app/document_cursor.go:5-19 | The cursor leads right behind its document, or is invalid |
| `Paging.CursorOutcome` | liquid2/internal/app/document_cursor.go:5-19 | A cursor is good exactly if it is empty or decodes to a listed identifier; the page starts right behind it |
| `Paging.SliceIDsByCursor` | liquid2/internal/app/document_cursor.go:21-48 | Computes the page at a cursor |
| `Paging.LimitPlusOneAgrees` | liquid2/internal/app/document_cursor.go:50-61 | Given the rows behind the cursor, one past the limit, the slice form returns the same page |
| `Paging.CursorLeadsOn` | liquid2/internal/app/document_cursor.go:63-74 | The cursor a page hands out leads right behind its last document |
| `Paging.PagesTileTheListing` | liquid2/internal/app/document_search.go:77-89 | Following the cursors over an unchanged store, whatever the map order at each request: no request fails, n requests give exactly the first n pages in order, and the last page is announced exactly at the end |
| `Paging.FollowingEnds` | liquid2/internal/app/document_search.go:77-89 | The client has everything after at most one request a document |
| `Paging.ListDocumentIDs` | liquid2/internal/app/document_search.go:50-90 | Filter, sort, cursor and slice compute the page |
| `Paging.CountDocuments` | liquid2/internal/app/document_count.go:3-24 | The count is the length of the whole listing |
| `SearchService.ListDocuments` | liquid2/internal/app/document_search.go:50-90 | On the state object the page is a function of the library alone |
| `SearchService.CountAll` | liquid2/internal/app/document_count.go:3-24 | On the state object the count equals the length of the listing for every map order |
| `Base64.RoundTrip` | liquid2/internal/app/document_cursor.go:63-74 | Decoding an encoded identifier gives it back (section 5 of RFC 4648, without padding) |
| `RunFacts.RunsHaveByteKeys` | liquid2/internal/app/document_cursor.go:63-74 | After every run whose timestamps are bytes all document identifiers are non-empty byte strings, which is what the cursor codec needs |
| `RunFacts.RunsCanBePaged` | liquid2/internal/app/document_search.go:22-90 | So in every reachable library following the cursors gives the whole listing |
| `JobRunner.EveryRunIsSound` | liquid2/internal/jobs/runner.go:98-158 | In every run of enqueues, claims, outcomes, failed transitions, crashes and recoveries: a handler begins at most maxAttempts times; attempts are its starts plus the claims lost to a crash before the start; queued jobs have no start or finish time; only the held job is running; active jobs are unique by kind and payload |
| `JobRunner.RetriesAreUsedUp` | liquid2/internal/jobs/runner_failure.go:32-59 | A job is given up only after maxAttempts attempts or by a recovery, is completed only after its handler succeeded, and once that happened is never queued again and fails only by a recovery that found it unrecorded |
| `JobRunner.TerminalForGood` | liquid2/internal/jobs/runner_failure.go:8-59 | A completed or failed row never changes again |
| `JobRunner.ClaimsAreBounded` | liquid2/internal/jobs/runner_failure.go:32-59 | Without new jobs the claims made and the attempts left never exceed together the attempts that were left |
| `JobRunner.FurtherClaims` | liquid2/internal/jobs/runner.go:98-158 | From any point of any run on, whatever crashes and recoveries follow, the runner claims at most as often as there were attempts left in the table at that point, unless a job is enqueued |
| `JobRunner.AttemptsExceedStarts` | liquid2/internal/jobs/runner.go:143-158 | A run after which a job has one attempt and no start: enqueued, claimed, and the process down before the handler begins |
| `JobRunner.SettleIsPossible` | liquid2/internal/jobs/sqlite_transition.go:11-32 | The transition after a handler ends is always permitted; only the database can refuse it |
| `JobRunner.SettleOutcome` | liquid2/internal/jobs/runner_failure.go:8-59 | Recording the end of a handler completes the job after a success, queues it again after a failure with attempts left and fails it otherwise, with the failure's message, and changes no other row |
| `JobRunner.NoHandlerIsMissing` | liquid2/internal/jobs/runner.go:143-158 | In every run, handlers being registered at any time, the claimed job has a handler in the snapshot: the branch for a missing handler is never taken |
| `JobRunner.HandleClaimed` | liquid2/internal/jobs/runner.go:148-157 | What happens to a claimed job, for every handler map: without a handler it fails with the message for that; after a success it is completed, after a failure queued again while attempts are left and failed otherwise, with the message of the failure; a refused transition changes nothing |
| `JobRunner.HandlerKinds` | liquid2/internal/jobs/runner.go:160-176 | The kinds of the handler map, each once, sorted |
| `JobRunner.RunOnce` | liquid2/internal/jobs/runner.go:143-158 | One round claims the first created queued job that some handler is for and settles its row as the handler ended: completed, queued again or failed, with its message, or left running if that could not be recorded; no other row changes; the state machine takes the same steps |
| `JobRunner.StepKeepsInv` | liquid2/internal/jobs/runner_failure.go:8-59 | Every step keeps the invariant of jobs, attempts and the held job |
| `JobQueue.Queue.Enqueue` | liquid2/internal/jobs/sqlite_queue.go:50-82 | Inserts, returns an existing row that asks for the same, or conflicts; a failure changes nothing |
| `JobRunner.EnqueueIsIdempotent` | liquid2/internal/jobs/sqlite_queue.go:50-82 | At any later point of any run, asking again for a job under its identifier adds nothing, changes nothing and is answered with the row as it is then |
| `JobQueue.EnqueueOutcome` | liquid2/internal/jobs/sqlite_queue.go:50-82 | Which requests are refused, which are answered with the row there is, and which get a row of their own, queued and never tried |
| `JobRunner.RowStays` | liquid2/internal/jobs/sqlite_queue.go:50-82 | Over any run a row never vanishes and never changes kind or payload |
| `JobQueue.EnqueueKeepsInv` | liquid2/internal/jobs/sqlite_enqueue.go:15-32 | Enqueueing keeps active jobs unique by kind and payload |
| `JobQueue.Queue.Claim` | liquid2/internal/jobs/sqlite_queue.go:84-129 | Starts the queued job of at most four kinds that was created first, the least identifier deciding, counts the attempt and clears the last error, or reports that there is none |
| `JobQueue.Scan` | liquid2/internal/storage/sqlite/sqlc/jobs.sql.go:20-32 | The claimed row is the first by creation time and identifier among the claimable ones |
| `JobQueue.OldestIsUnique` | liquid2/internal/storage/sqlite/sqlc/jobs.sql.go:20-32 | There is only one such row |
| `JobQueue.TransitionOutcome` | liquid2/internal/jobs/sqlite_transition.go:34-65 | Which changes of status are allowed and what each makes of times and message; no other row changes |
| `JobQueue.RecoverOutcome` | liquid2/internal/storage/sqlite/sqlc/jobs.sql.go:233-240 | Recovery fails exactly the running jobs, now and with its message |
| `JobQueue.Queue.Transition` | liquid2/internal/jobs/sqlite_transition.go:11-65 | Changes the row by the transition table, or refuses and changes nothing |
| `JobQueue.TransitionKeepsInv` | liquid2/internal/jobs/sqlite_transition.go:34-65 | Timestamps and error follow the status, and active jobs stay unique |
| `JobQueue.Queue.RecoverRunning` | liquid2/internal/jobs/sqlite_queue.go:143-155 | Fails exactly the running jobs |
| `JobQueue.RecoverKeepsInv` | liquid2/internal/storage/sqlite/sqlc/jobs.sql.go:233-240 | After recovery no job is running and the table is sound |
| `Usage.ProviderUsage.Normalize` | plasma/internal/agentusage/usage.go:197-217 | Changes the record in place as the normalization function says |
| `Usage.NormalizeIsIdempotent` | plasma/internal/agentusage/usage.go:197-217 | Normalizing twice is normalizing once |
| `Usage.NormalizeOnlyFills` | plasma/internal/agentusage/usage.go:197-217 | Only a zero uncached count and a zero total are filled in, so that cached and uncached part make up the input and input and output the total; validity is not affected |
| `Usage.ScopeOutcome` | plasma/internal/agentusage/increment.go:18-31 | A usage that does not say what it is about is about the session if it is of the first schema and that one source, and about a call otherwise |
| `Usage.IncrementExists` | plasma/internal/agentusage/increment.go:33-74 | There is an increment exactly for a sensible report of one call, and for one of a session that comes first or follows a sensible report of the same session |
| `Usage.IncrementOutcome` | plasma/internal/agentusage/increment.go:33-114 | The increment is what was reported for a call, for a first report and after a reset, which is when some counter fell; otherwise it is the difference of every counter |
| `Usage.IncrementsAreNonNegative` | plasma/internal/agentusage/increment.go:33-74 | An increment is attributed to the call and has no negative counter |
| `Usage.IncrementCanBeInvalid` | plasma/internal/agentusage/increment.go:33-74 | Two snapshots of one session whose returned increment breaks the rule |
| `Usage.IncrementIsValidWhen` | plasma/internal/agentusage/increment.go:33-74 | For all usages: what is returned satisfies the validity rule of snapshots exactly unless it is a difference between whose snapshots some remainder fell (input outside the cached or the uncached part, output outside reasoning) |
| `Usage.IncrementsTelescope` | plasma/internal/agentusage/increment.go:33-114 | After every call of a session the increments sum to the current snapshot plus the last snapshot of each stretch a reset ended |
| `Usage.NoResetSumsToFinal` | plasma/internal/agentusage/increment.go:33-114 | Without a reset they sum to the final snapshot |

## Left out

- Notes, ratings, read state, settings, uploads and blobs: single-branch updates of fields the rest does not read.
- Demo seeding: runs start from the empty store.
- The SQLite adapters of the library: the in-memory repository is the reference; of the SQL only the job statements are modelled.
- HTTP fetching, feed parsing, extraction, export, backup, logging, command lines and configuration.
- Plasma apart from the usage increments.
- Store: the records of folders, tags, feeds, feed items and versions, which the source only ever replaces through their pointers, are values in the maps, not cells of their own.
- Store.Store.Documents: returns the copies as values, not as records with cells of their own, because the callers only read them or put changed copies back.
- Library.NewID: the clock is read as a function of the counter, so two readings without a draw between them agree; identifiers stay distinct for every clock, even one that stands still.
- FeedOps.CreateFeedOutcome: takes the sort order of the new folder as an input, because it depends on map order.
- Sorting.Sort: `sort.Slice` is represented by an insertion sort on values; uniqueness of the sorted sequence makes the choice irrelevant.
- Transactions.Update: what a callback reads only decides which writes it makes, so a callback is the list of its writes and the way it ends.
- OwnerLoop.RunsAreBounded: counts steps of a finite number of callers and closers; it says nothing about real time.
- Paging.PagesTileTheListing: identifiers are byte strings, as all Go strings are; a character stands for a byte.
- ImportAgain.ReimportAfterRecreation: assumes that canonical and source URL of the items coincide with their URL and that no RSS document was orphaned before.
- JobRunner.RunOnce: a handler is represented by the way it will end, and whether the database takes the transition is an input; the run loop with its delays and stop channel is the state machine.
- Usage.NormalizeIsIdempotent: takes from trimming that trimming twice is trimming once.
- Integers are unbounded: the counters and timestamps of the source are 64 bits wide and far from their limits.
