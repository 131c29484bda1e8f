# Noted: a verified model

Noted keeps a library of scanned scores: it stores uploads and published PDFs, searches and
lists pieces, limits and caches calls to IMSLP, exports libraries, and prepares photographed
pages. This project models the parts of it where the hard promises are, in Dafny, and proves
those promises for all inputs, all runs and all interleavings. `dafny verify dfyconfig.toml`
checks the whole of it.

Each object whose methods change its fields is a class proved against functions on values;
transactions and events are steps of a state machine; the theorems are about those functions
and machines, over every run.

| files | what they model |
|---|---|
| `Manifest`, `ScoreTables`, `ScoreInvariants`, `ScoreProtocol`, `ScoreSafety`, `ScoreTheorems`, `ScoreDatabase` | score storage: drafts, assets, publications, the deletion queue and its cleaners, as a protocol over tables and files |
| `SearchStrings`, `SearchFold`, `SearchTerms`, `SearchIndex`, `SearchTheorems`, `SearchAgreement`, `SearchDoubt`, `SearchSql`, `LibraryViews` | search: fold, parser, index, matcher, SQL patterns and filters, on the server and in the browser |
| `FoldOffsets`, `Highlight`, `SpanTerms`, `HighlightSearch` | marking matches in a text as written, and what a search for a text's own terms marks in it |
| `LibraryRows`, `LibrarySearch`, `PieceStore`, `Composers` | metadata of pieces, merged drafts, derived columns, the composer list |
| `TokenBucket`, `UserLimiter`, `ExportLimiter`, `Breaker`, `BreakerReplies`, `BreakerPauses` | rate limits, export limits, and the circuit breaker shared by concurrent callers |
| `RecentCache`, `PreparedPages` | least-recently-used caches, with expiry or byte budgets |
| `Export`, `ExportPaths` | the library export and its file names |
| `JpegOrientation`, `JpegFill` | the EXIF parser |
| `StatusSaves`, `WakeLock` | optimistic status saves and the screen wake lock |

## What is assumed

- A transaction is atomic and serialisable, and a commit that reports an error has either
  taken effect or never will. Storage keys and identifiers are never drawn twice, and JSON
  columns read back what was written.
- Deleting a piece deletes its PDF, sources and drafts, and deleting a draft deletes its
  sources (migrations/000001_binder.up.sql:12-20, migrations/000004_score_intake.up.sql:12-28).
- An upload accepted as a PDF has the page count its validation reported, and a file in the
  asset store is never changed.
- In search, normalisation (decomposition, lower case, leftover letters) has been applied, and
  letters, numbers and marks are not white space.
- A failed status request did not change the server, and a released wake lock is released.
- The digest in an export and the fingerprint of a merge tell different contents apart only as
  far as equality of what they digest is concerned: the model compares values.
- Tokens and times are exact reals.

## Where the program does less than it says

- `SearchAgreement.TermsAgreeExactlyWhen`: the two implementations of the search terms are
  meant to be the same function; they differ on a text such as "d 9" after a byte order mark,
  because only JavaScript takes that mark for white space. `LibraryViews.SelectedAlikeExactlyWhen`
  says for which queries that shows.
- `SearchTheorems.EmptyTermMeansMarksAlone` with `Highlights.SearchEndsExactlyWhen`: a search
  with a word of marks alone has an empty term, and highlighting such a search does not end.
  `SearchAgreement.MarksAloneMisranks`: for the same texts the two exact-term ranks differ.
  `SearchAgreement.LoneMark` is such a text.
- `HighlightSearches.EllipsisHidesNumber`: a search finds a text by a catalogue number after a
  bare S, D or L that is followed by an ellipsis, since the normalised ellipsis is full stops,
  and marks nothing for it, since the text as written has none.
  `HighlightSearches.SearchMarksItsText` says which terms are marked.
- `ExportLimiters.BusyRetryTooShort`: the second a busy owner is told to wait can be too short,
  since the export that is running has spent the token; `ExportLimiters.BusyRetryIsExact` says
  when it is enough.
- `BreakerPauses.LatePauseIsDropped`: a pause that IMSLP asks an earlier request for, while a probe
  is out, ends when that probe succeeds; `BreakerPauses.RequestedPauseIsSafeExactlyWhen` says when a
  pause is safe.
- `LibraryRows.UntouchedFieldIsLost`: a draft whose recorded base has white space around a field
  overwrites a newer value of that field even if the draft left it alone;
  `LibraryRows.UntouchedFieldKeptExactlyWhen` says when it is kept. Rows written with trimmed
  texts, as all writes of the program are, give no such base.
- `JpegFills.FillLosesOrientation` and `JpegFills.FillMakesUpright`: section
  B.1.1.2 of ITU-T T.81 lets fill bytes stand before a marker. The program takes the first of
  them for the marker and the two bytes after it for a length, and jumps that far: past the end
  of the file, so that the answer is undefined, or to wherever it leads, so that the answer may
  be a wrong one. `JpegFills.ReadBackExactlyWhen` says when it is right.
- `JpegOrientations.ManyFieldsHideOrientation`: section 2 of TIFF 6.0 gives a directory a 16-bit
  count of fields, and a segment has room for more than five thousand; one of more than 1024 is
  answered with undefined, whatever its orientation says. `JpegOrientations.OrientationRoundTrip`
  says so exactly.

## Model

| member | source | states |
|---|---|---|
| `Manifests.ValidateManifest` | internal/app/import_validation.go:105-166 | accepts exactly the valid manifests: version 1, at most ten pages (none only if allowed), distinct UUID page identifiers, and every page an adjusted page of one of the sources |
| `Manifests.PageFits` | internal/app/import_validation.go:119-163 | the page checks in the program's order accept exactly the adjustments within the supported bounds |
| `Manifests.CornersFit` | internal/app/import_validation.go:148-163 | the two corner loops accept exactly four normalised pairs that turn clockwise at every corner |
| `Manifests.UnitValues` | internal/app/import_validation.go:167-174 | true exactly when every value lies between 0 and 1 |
| `Manifests.CornersAreConvex` | internal/app/import_validation.go:157-162 | four accepted corners are a convex page: every corner lies strictly inside each edge it is not an end of |
| `Manifests.StaysValid` | internal/app/import_validation.go:119-122 | a manifest stays valid when sources are added or dropped, as long as those its pages name stay as they are |
| `Manifests.AppendedIsValid` | internal/app/imports.go:404-406 | appending the first pages of a source, unadjusted and freshly identified, keeps a manifest valid |
| `ScoreDatabases.ScoreDatabase.DraftTx` | internal/app/imports.go:133-153 | reads a draft only if owned and not expired, and lists exactly its own sources, each once |
| `ScoreDatabases.ScoreDatabase.SourceBytes` | internal/app/imports.go:377-380 | the loop adds up the bytes of the sources, whatever their order |
| `ScoreDatabases.ScoreDatabase.AppendPages` | internal/app/imports.go:257-259 | appends as many pages of a source as there are and as the manifest has room for |
| `ScoreDatabases.ScoreDatabase.InsertDraftSources` | internal/app/imports.go:276-280 | one row for each source, duplicates ignored, other rows untouched |
| `ScoreDatabases.ScoreDatabase.CreateImport` | internal/app/imports.go:185-285 | whatever the branch taken, commits exactly the tables the transaction function gives, or changes nothing |
| `ScoreDatabases.ScoreDatabase.UpdateImport` | internal/app/imports.go:286-339 | commits the edited manifest at the next revision, or reports the first failing check and changes nothing |
| `ScoreDatabases.ScoreDatabase.AttachSource` | internal/app/imports.go:363-430 | commits the asset, its source row and the extended manifest together, or nothing |
| `ScoreDatabases.ScoreDatabase.PublishRows` | internal/app/imports.go:514-588 | the piece, PDF, source and draft rows of a finalisation, written statement by statement, are those of Published |
| `ScoreDatabases.ScoreDatabase.FinalizeImport` | internal/app/imports.go:446-606 | publishes, answers a retry without a change, or reports the first failing check and changes nothing |
| `ScoreDatabases.ScoreDatabase.DeleteImport` | internal/app/imports.go:638-666 | deletes an open draft with its sources and collects orphans; a finalised draft is a conflict |
| `ScoreDatabases.ScoreDatabase.DeletePiece` | internal/app/service.go:347-376 | deletes a piece with its PDF, sources and drafts, collects orphans and queues its key if nothing else holds it |
| `ScoreDatabases.ScoreDatabase.CleanupImports` | internal/app/imports.go:682-730 | one undisturbed pass deletes the files of exactly the listed unreferenced keys whose deletion succeeds, and dequeues exactly those |
| `ScoreTables.CollectedMoves` | internal/app/imports.go:671-674 | collecting orphans queues exactly the keys that lose their last reference |
| `ScoreTables.CollectedIsSound` | internal/app/imports.go:671-674 | collecting orphans leaves no orphan, no dangling reference and every manifest valid |
| `ScoreTables.SettledMoves` | internal/app/imports.go:586-596 | dropping references, collecting and queueing the replaced key moves every key that loses its last reference to the queue and no other |
| `ScoreTables.SettledIsOk` | internal/app/imports.go:667-674 | whatever references were dropped, settling restores the invariant and leaves every row describing its file |
| `ScoreInvariants.CreatePieceKeeps` | internal/app/service.go:241-271 | a new piece keeps the tables sound, closed and free of orphans, and moves no key |
| `ScoreInvariants.CreateImportKeeps` | internal/app/imports.go:185-285 | starting a draft keeps them so in every branch; the row inserted for a saved PDF shares its key and describes the same file |
| `ScoreInvariants.UpdateImportKeeps` | internal/app/imports.go:286-339 | an accepted edit leaves the draft valid against its own sources |
| `ScoreInvariants.AttachSourceKeeps` | internal/app/imports.go:384-428 | an attached source is the only new reference, and the extended manifest is valid |
| `ScoreInvariants.FinalizeImportKeeps` | internal/app/imports.go:541-604 | a publication keeps exactly its manifest's sources, replaces the PDF row, and queues what it displaced |
| `ScoreInvariants.DraftsDeletedKeep` | internal/app/imports.go:655-665 | deleting or expiring drafts drops no asset another draft or piece still names |
| `ScoreInvariants.DeletePieceKeeps` | internal/app/service.go:364-376 | deleting a piece leaves nothing behind but queued keys |
| `ScoreInvariants.SavedManifestIsValid` | internal/app/imports.go:229-238 | the manifest of a saved piece is valid again against the sources the piece kept |
| `ScoreInvariants.PublishedIsSound` | internal/app/imports.go:559-588 | the rows of a publication link owners correctly, keep storage keys apart and close every manifest |
| `ScoreInvariants.PreparedAgain` | internal/app/imports.go:213-279 | a saved piece of at most ten pages can be prepared again: the draft starts from its last manifest or the pages of its PDF, with every source and file at hand |
| `ScoreSafety.DeleteKeepsStorage` | internal/app/imports.go:711-724 | deleting the file of a dead key takes it from no row and no open save |
| `ScoreSafety.DequeueKeepsStorage` | internal/app/imports.go:725-727 | only a key whose file is gone leaves the queue |
| `ScoreSafety.PublishKeepsStorage` | internal/app/imports.go:384-428 | a commit that takes effect, reported or not, turns the saved file into a referenced one |
| `ScoreSafety.EndingSaveKeepsStorage` | internal/app/imports.go:545-552 | a save that ends without effect leaves its file to queueObject, or to a crash |
| `ScoreSafety.QueueObjectKeepsStorage` | internal/app/imports.go:675-679 | queueing a key, even one that a lost reply left referenced, endangers no file |
| `ScoreSafety.CheckKeepsStorage` | internal/app/imports.go:712-718 | a key that passes the cleaner's check is dead |
| `ScoreSafety.SavedPages` | internal/app/imports.go:530-544 | the bytes a finalisation saves have the page count it was checked for, also when it saves the old bytes again |
| `ScoreSafety.StepKeepsInv` | internal/app/imports.go:363-730 | every step of any process keeps safety, closure and conservation |
| `ScoreTheorems.NoReferencedFileIsLost` | internal/app/imports.go:667-729 | in every interleaving of uploads, finalisations, deletions, expiry and any number of cleaners, every key held by a PDF or asset row has its file, and the row describes it |
| `ScoreTheorems.DeadStaysDead` | internal/app/imports.go:711-724 | a key once unreferenced and in no open transaction is never referenced again, over any run |
| `ScoreTheorems.NothingIsForgotten` | internal/app/imports.go:667-679 | every stored file is referenced, queued, in an unfinished save or awaiting queueObject, unless a crash or a failed queueObject leaked it |
| `ScoreTheorems.OnlyBreakageLeaks` | internal/app/imports.go:675-679 | without a crash or a failed queueObject no key is leaked, over any run |
| `ScoreTheorems.EveryStateIsClosed` | internal/app/import_validation.go:105-166 | in every state open drafts are valid against readable sources of their own, prepared pieces keep exactly their manifest's sources and a PDF of as many pages, and no asset is orphaned |
| `ScoreTheorems.AnyPieceCanBePreparedAgain` | internal/app/imports.go:213-279 | after any run, preparing a saved piece of at most ten pages succeeds and never dangles |
| `ScoreTheorems.UnchangedSaveKeepsBytes` | internal/app/imports.go:530-544 | saving an unchanged preparation keeps the size, checksum and pages of the PDF it started from, whatever was uploaded |
| `ScoreTheorems.RetryChangesNothing` | internal/app/imports.go:459-461 | finalising a finalised draft again changes nothing |
| `ScoreTheorems.DraftsPublishOnce` | internal/app/imports.go:296-298 | over any run edits of a draft are numbered consecutively, a draft publishes at most once, and at most one of the drafts from one content revision publishes |
| `ScoreTheorems.RunKeepsHistory` | internal/app/imports.go:456-509 | every step records its edits and publications truthfully |
| `ScoreTheorems.PublicationRowsMove` | internal/app/imports.go:557-585 | a publication finalises its draft and moves its piece from its content revision to the next |
| `SearchFolds.FoldSearch` | internal/app/search.go:42-60 | the loop computes the fold |
| `SearchFolds.FoldsAgree` | web/src/app/core/search.ts:28-41 | stripping marks, collapsing runs and trimming gives every text the fold the API streams |
| `SearchFolds.FoldIsJoined` | internal/app/search.go:37-60 | the fold is the words of the text without their marks, one space between them |
| `SearchFolds.WordInFold` | internal/app/search.go:37-60 | every word of a text is found in its fold |
| `SearchParser.FoldSpanAt` | internal/app/search.go:114-115 | the next run of letters, numbers and marks, and its base characters |
| `SearchParser.CatalogueWords` | internal/app/search.go:110-124 | the words of a text, glued catalogue numbers split where they may be, with the flag for S, D and L |
| `SearchParser.ParseWord` | internal/app/search.go:132-177 | one turn of the parser: how many words it uses and the terms it emits, in both modes |
| `SearchParser.CatalogueTerms` | internal/app/search.go:110-179 | the two loops compute the terms of a text |
| `SearchIndexes.FoldFields` | internal/app/search.go:185-192 | the non-empty folds of the fields and all their terms, in order |
| `SearchIndexes.AppendTerms` | internal/app/search.go:193-207 | appends each term the index does not have, once |
| `SearchIndexes.BuildIndex` | internal/app/search.go:185-208 | the loops compute the index |
| `SearchIndexes.MatchesSearchTerm` | internal/app/search.go:214-224 | substring search, and whole words or their prefixes for keys |
| `SearchIndexes.ExactTermRank` | internal/app/search.go:239-248 | counts the terms that are no whole word |
| `SearchIndexes.ModesAlign` | internal/app/search.go:139-148 | every term of a search is a term of the stored form or a number left alone after a catalogue number |
| `SearchIndexes.PartIsInFold` | internal/app/search.go:114-124 | a number left alone is a whole word of the fold, never half of a glued one |
| `SearchIndexes.TextTermsAreUnbroken` | internal/app/search.go:131-178 | no term holds white space |
| `SearchTheorems.IndexKeeps` | internal/app/search.go:183-208 | the index starts with the folds, has no white space but single spaces, and holds every term as a whole word |
| `SearchTheorems.IndexHoldsFold` | internal/app/search.go:186-193 | the fold of every field is found in the index |
| `SearchTheorems.FindsItself` | internal/app/search.go:110-208 | any text finds itself: every term of a search for a field matches the index of fields that hold it |
| `SearchTheorems.EmptyTermMeansMarksAlone` | internal/app/search.go:114-123 | a search has an empty term exactly when a word of its text is made of marks alone |
| `SearchTheorems.MatchersAgree` | web/src/app/core/search.ts:254-259 | the API's and the browser's matcher agree on every index without other white space |
| `SearchTheorems.RanksAgreeExactlyWhen` | web/src/app/core/search.ts:261-264 | the two ranks agree exactly when no empty term meets an empty word of the index |
| `SearchAgreement.TermsAgreeExactlyWhen` | web/src/app/core/search.ts:161-225 | the API and the browser read the same terms exactly when the text does not start with S, D or L before a number after something only one of them takes for white space |
| `SearchAgreement.TextInDoubt` | web/src/app/core/search.ts:171-173 | a text that starts with a byte order mark before "d 9" is such a text |
| `SearchAgreement.IndexesAgree` | web/src/app/core/search.ts:232-244 | for fields that do not start in doubt the browser's index is the one the API stores |
| `SearchAgreement.MarksAloneMisranks` | internal/app/search.go:239-248 | a piece with a field that has a word of marks alone is ranked worse by the API than by the browser for that field's own text |
| `SearchAgreement.LoneMark` | internal/app/search.go:114-123 | a combining accent by itself is such a word: a search for it has an empty term |
| `SearchAgreement.GluedShortTerms` | internal/app/search.go:117-123 | a glued S, D or L number is the same term whether it is split or not |
| `SearchDoubts.TwoReadings` | web/src/app/core/search.ts:161-173 | of a text in doubt one program reads the joined catalogue number, the other its letter and number apart; all other terms are the same |
| `SearchDoubts.RepeatsMatchAlike` | web/src/app/core/search.ts:254-259 | when a later term holds the joined number again, both readings match the same pieces |
| `SearchDoubts.TurnedTellsApart` | web/src/app/core/search.ts:254-259 | otherwise a piece that holds the number before the letter is matched by one reading only |
| `SearchSql.EscapedIsLiteral` | internal/app/search.go:250-251 | an escaped text at the head of a LIKE pattern matches exactly that text |
| `SearchSql.SurroundedIsContained` | internal/app/search.go:234 | a pattern of an escaped text between percent signs matches exactly the strings that contain the text |
| `SearchSql.WordIsBetweenSpaces` | internal/app/search.go:227-232 | a word of the index is a text between spaces once a space stands at both ends |
| `SearchSql.PrefixIsAfterSpace` | internal/app/search.go:229-231 | some word starts with a text exactly when the text stands after a space |
| `SearchSql.PatternIsTheMatcher` | internal/app/search.go:226-235 | for every index and every term, the pattern matches the column exactly when the browser's matcher finds the term |
| `LibraryViews.NamedStatuses` | internal/app/validation.go:90-99 | the loop collects exactly the statuses named, each once, or finds a part that names none |
| `LibraryViews.ParseStatusFilter` | internal/app/validation.go:79-100 | an absent, "all" or listed status parameter means what the API says it does |
| `LibraryViews.ParamsMeanFilter` | web/src/app/features/library/library.utils.ts:163-174 | the parameters the browser sends for a filter select what its own filter keeps |
| `LibraryViews.SameSelection` | internal/app/service.go:180-203 | for any query not in doubt, or that holds its joined number again, any filter and any piece, the server selects the piece exactly when the browser keeps it |
| `LibraryViews.DifferentSelection` | internal/app/service.go:180-203 | for any other query there is a piece one of them shows and the other does not |
| `LibraryViews.SelectedAlikeExactlyWhen` | web/src/app/features/library/library.utils.ts:163-174 | both halves as one condition on the query |
| `FoldOffsets.FoldWithOffsets` | web/src/app/core/search.ts:55-74 | the loop computes the folded text and its offsets |
| `FoldOffsets.OffsetsAreAligned` | web/src/app/core/search.ts:55-74 | however letters fold, starts and ends match the fold in length, are non-empty, ordered, and of the same letter or disjoint |
| `FoldOffsets.OffsetsLeadBack` | web/src/app/core/search.ts:61-70 | each folded unit is one its own letter folds to |
| `FoldOffsets.FoldedWords` | web/src/app/core/search.ts:351-384 | the loops find exactly the words of the folded text, glued catalogue numbers in two, each with where it is written |
| `FoldOffsets.WordsAreTheRuns` | web/src/app/core/search.ts:355-360 | a word is found exactly when it is one of a run of the fold that stands between spaces |
| `FoldOffsets.RunIsSplit` | web/src/app/core/search.ts:359-381 | a run is cut as the search parser cuts it, starts and ends where its letters do, and a glued number is cut between two letters |
| `FoldOffsets.TextWordsInOrder` | web/src/app/core/search.ts:350-384 | the words of any text lie in it, are not empty, and are in order |
| `FoldOffsets.AppendWord` | web/src/app/core/search.ts:361-381 | appends the word of a run, or the two halves of a glued number |
| `FoldOffsets.SpanWord` | web/src/app/core/search.ts:293-346 | one turn of the span loop uses the words the parser uses and pushes the spans of that parse |
| `FoldOffsets.SearchTermSpans` | web/src/app/core/search.ts:288-348 | the spans are those of the text's own words, turn by turn of the parser, and each is a non-empty stretch of the text |
| `FoldOffsets.JoinedTermsAreSpanned` | web/src/app/core/search.ts:282-287 | whatever the parser joins into one term is marked from its first word to its last |
| `FoldOffsets.TermsAreSpanned` | web/src/app/core/search.ts:282-287 | every term the words of a text make is a whole word of its fold or has a span |
| `Highlights.SearchEndsExactlyWhen` | web/src/app/features/library/library.utils.ts:121-123 | the loop over the places of a term ends exactly when the term is not empty |
| `Highlights.Places` | web/src/app/features/library/library.utils.ts:117-124 | a term is placed wherever it starts a word, or else where it first appears; a letter alone only as a word |
| `Highlights.WordRanges` | web/src/app/features/library/library.utils.ts:117-130 | the ranges of all placed terms, and exactly the terms without a place |
| `Highlights.SpanRanges` | web/src/app/features/library/library.utils.ts:131-135 | the spans that produce a term without a place |
| `Highlights.CollectRanges` | web/src/app/features/library/library.utils.ts:110-135 | the ranges are exactly those of the places of the terms in the folded text and of the text's spans for terms without a place |
| `Highlights.MarkedExactlyWhen` | web/src/app/features/library/library.utils.ts:116-135 | a term marks something in a text exactly when it has a place in the fold or a span of the text produces it |
| `Highlights.TextMarksItself` | web/src/app/features/library/library.utils.ts:110-135 | a search for any term that the folded words of a text make marks something in it |
| `Highlights.JoinedTermIsMarked` | web/src/app/features/library/library.utils.ts:131-135 | a term without a place, such as k545 for "K. 545", is marked from the first word the text writes it with to the last |
| `Highlights.ShowRange` | web/src/app/features/library/library.utils.ts:140-146 | shows the gap before a range, and joins the range to a marked part it touches |
| `Highlights.UniteRanges` | web/src/app/features/library/library.utils.ts:136-149 | sorted ranges are cut into parts that are the text, not empty, alternating, and marked exactly where a range covers them |
| `Highlights.MatchParts` | web/src/app/features/library/library.utils.ts:110-150 | for non-empty terms: ends, and the parts show the text marked exactly where a range collected from the text covers it |
| `SpanTerms.WordsTerms` | web/src/app/core/search.ts:186-225 | the terms of the words of spans are those of turns over the spans, glued numbers and "Hob. L" included |
| `SpanTerms.TermsAreKept` | web/src/app/core/search.ts:171-173 | if short letters may name catalogues elsewhere, every term is still there, or is a whole span, or is a lost number |
| `SpanTerms.TermsRespelled` | web/src/app/core/search.ts:186-225 | every term is a whole span, or ASCII and a term also when spans beyond ASCII are spelled otherwise |
| `HighlightSearches.WordsOfRuns` | web/src/app/core/search.ts:351-384 | the words of a text are those the search parser makes of the runs of its fold |
| `HighlightSearches.RunsOfFold` | web/src/app/core/search.ts:28-41 | the runs of the fold of a text are its words without their marks |
| `HighlightSearches.SearchMarksItsText` | web/src/app/features/library/library.utils.ts:110-135 | when the letters' folds, joined, hold the words of the fold of a text, and no word is of marks alone: a search for any term of searchTerms of the text marks something in it, unless only the normalised text lets a short letter name the catalogue and the term is nowhere else in the text |
| `HighlightSearches.EllipsisHidesNumber` | web/src/app/core/search.ts:363 | the search "a d… 9" has the term d9, and marks nothing for it in that very text |
| `LibraryRows.NothingIsLost` | internal/app/imports.go:492-510 | every field of a finalised piece is the draft's if the draft changed it from its base, and otherwise the current one; without a base nothing changes |
| `LibraryRows.FinalisingLosesNothing` | internal/app/imports.go:465-510 | so it is for every finalisation after any run, whoever wrote in between, old replicas included |
| `LibraryRows.UntouchedFieldKeptExactlyWhen` | internal/app/imports.go:465 | for any base, a text the draft left alone keeps its current value exactly when the base was trimmed there or the two differ in white space only |
| `LibraryRows.UntouchedFieldIsLost` | internal/app/imports.go:103-122 | a base " X" makes a draft that changed nothing put back the composer over "Y" |
| `LibraryRows.PatchKeepsTheRest` | internal/app/service.go:273-345 | a patch changes what it sets and nothing else |
| `LibraryRows.StepKeepsTrimmed` | internal/app/validation.go:26-65 | every write leaves trimmed texts, also in the bases of drafts |
| `LibraryRows.RunKeepsFresh` | internal/app/service.go:329-334 | over any run of the program's own writes no search text is stale, and none is after all are rebuilt, whoever wrote before |
| `LibraryRows.ReindexFreshens` | internal/app/search.go:284-308 | the rebuild writes every search text anew from the columns it reads |
| `LibraryRows.StepKeepsKeysHonest` | internal/app/composers.go:47-48 | even writes of old replicas leave no key claiming to be what it is not |
| `LibraryRows.RunKeepsKeysHonest` | internal/app/composers.go:47-48 | the same over any run |
| `LibraryRows.MergeChangesItsPreview` | internal/app/composers.go:265-276 | a merge changes exactly the pieces its preview shows, refreshes their columns and keeps every other field |
| `LibraryRows.RepairShrinksStale` | internal/app/composers.go:100-135 | a repair makes exactly its batch fresh and touches derived columns only |
| `LibrarySearches.EveryPieceIsFound` | internal/app/validation.go:67-70 | after any such run a search for the title, composer, aliases, notes, opus or key of a piece selects it in the database |
| `PieceStores.PieceStore.ValidatePiece` | internal/app/validation.go:26-65 | trims every text and accepts exactly the valid pieces |
| `PieceStores.PieceStore.CreatePiece` | internal/app/service.go:241-271 | the columns the INSERT lists are those of a row with fresh derived columns |
| `PieceStores.PieceStore.UpdatePiece` | internal/app/service.go:273-345 | the columns the UPDATE lists give the patched row with fresh derived columns, or nothing changes |
| `PieceStores.PieceStore.Patched` | internal/app/service.go:288-325 | each value a patch sets replaces the current one |
| `PieceStores.PieceStore.MergeDraftMetadata` | internal/app/imports.go:103-122 | the draft's changes on top of the current values |
| `PieceStores.PieceStore.FinalizeMetadata` | internal/app/imports.go:462-560 | writes no aliases, opus or key, and still the search text of the row as it ends up |
| `Composers.GroupByComposer` | internal/app/composers.go:57-81 | however stale the stored keys, one entry for each spelling with its fresh key and its pieces in order |
| `Composers.ListComposers` | internal/app/composers.go:49-95 | the list is the one computed fresh from the rows, in strict order |
| `Composers.ListIsUnique` | internal/app/composers.go:82-93 | two such lists of the same rows are the same list |
| `Composers.ReadsAreHonest` | internal/app/composers.go:50-63 | after any run, whatever old replicas wrote, the stored keys the list trusts are those of their sources |
| `Composers.EntryShowsSelection` | internal/app/composers.go:66-78 | the entry of a spelling counts and shows exactly the pieces that merging it would change |
| `Composers.MergeIsReviewed` | internal/app/composers.go:258-264 | a merge accepted with a reviewed fingerprint changes exactly the pieces that were shown, spelled as they were shown |
| `Composers.ComposerStore.RepairComposerKeys` | internal/app/composers.go:100-135 | the batch loop repairs each row of its batch and no other |
| `Composers.ComposerStore.MergeComposers` | internal/app/composers.go:162-281 | invalid without 1 to 100 spellings or a target; merges exactly when the fingerprint is the one of the current selection; otherwise changes nothing |
| `TokenBuckets.TokenBucket.Refill` | internal/app/ratelimit.go:15-24 | the new state is the old one with what the elapsed time earned, capped; a clock that goes back earns nothing |
| `TokenBuckets.TokenBucket.Allow` | internal/app/ratelimit.go:26-33 | takes a token exactly when there is a whole one after refilling |
| `TokenBuckets.TokenBucket.Reserve` | internal/app/ratelimit.go:37-48 | grants exactly when the wait for a token is within the limit, and otherwise takes nothing |
| `TokenBuckets.TokenBucket.Refund` | internal/app/ratelimit.go:51-53 | gives back one token, capped at the burst |
| `TokenBuckets.DeparturesSpaced` | internal/app/ratelimit.go:37-48 | the k-th later departure never comes before k + 1 tokens were earned |
| `TokenBuckets.DeparturesBetween` | internal/app/ratelimit.go:37-48 | departures i to j number at most burst plus the tokens earned between them |
| `TokenBuckets.NewDeparturesBetween` | internal/app/ratelimit.go:15-48 | the same for a new bucket and any calls on a clock that does not go back |
| `TokenBuckets.WindowBound` | internal/app/ratelimit.go:15-53 | reservations that depart in any window of length D number at most burst plus rate times D |
| `TokenBuckets.RunBalanced` | internal/app/imslp.go:365-392 | with refunds, kept reservations and tokens stay in balance with what time earned |
| `TokenBuckets.KeptBound` | internal/app/imslp.go:365-392 | reservations kept since creation number at most burst plus rate times elapsed time and the longest wait |
| `UserLimiters.UserLimiter.Sweep` | internal/app/ratelimit.go:82-89 | the loop drops exactly the users idle for the whole period |
| `UserLimiters.UserLimiter.Allow` | internal/app/ratelimit.go:78-97 | the answer and the new users are those of sweeping, finding or creating the user, and asking its bucket |
| `UserLimiters.ForgettingUnobservable` | internal/app/ratelimit.go:78-97 | if the idle period refills a bucket, a limiter that forgets answers every call like one that never does |
| `UserLimiters.BuiltLimitersForgetUnnoticed` | internal/app/service.go:38-45 | so it is for the limiters the program builds: none of them is ever noticed to forget |
| `UserLimiters.ForgettingObservable` | internal/app/ratelimit.go:78-97 | for a whole burst the period does not refill, some calls tell the two apart |
| `UserLimiters.DrainsAtOnce` | internal/app/ratelimit.go:26-33 | a full bucket grants exactly its burst at one moment |
| `ExportLimiters.ExportLimiter.Sweep` | internal/app/export_limit.go:31-38 | the loop drops exactly the inactive entries unseen for ten minutes |
| `ExportLimiters.ExportLimiter.Enter` | internal/app/export_limit.go:39-45 | finds or creates the owner's entry, and refills it |
| `ExportLimiters.ExportLimiter.AcquireExport` | internal/app/export_limit.go:27-55 | the reply, the entry and the release handle are those of the acquire function |
| `ExportLimiters.ExportLimiter.ReleaseExport` | internal/app/export_limit.go:54 | a release frees its entry the first time and does nothing after |
| `ExportLimiters.RunKeepsInv` | internal/app/export_limit.go:27-55 | in every run entries of active exports stay, and each unused handle leads to the entry it was given for |
| `ExportLimiters.ReleaseFreesLiveEntryOnce` | internal/app/export_limit.go:54 | after any run, a release handle used for the first time frees the entry the owner has now |
| `ExportLimiters.OneExportPerOwner` | internal/app/export_limit.go:46-53 | while an owner's export runs, no other of theirs starts |
| `ExportLimiters.ForgettingUnobservable` | internal/app/export_limit.go:31-38 | dropping idle entries is never noticed in the replies |
| `ExportLimiters.TokenRetryIsExact` | internal/app/export_limit.go:49-51 | for an owner refused for want of a token the delay it is told is always enough, and no wait shorter by more than a millisecond is, unless its entry was dropped as idle |
| `ExportLimiters.BusyRetryIsExact` | internal/app/export_limit.go:46-48 | an owner refused while an export runs is always told one second, which is enough exactly when that export has ended and at most a 300th of a token was missing |
| `ExportLimiters.BusyRetryTooShort` | internal/app/export_limit.go:46-48 | the one second told to a busy owner can be too short |
| `Breakers.CircuitBreaker.Admit` | internal/app/imslp.go:305-316 | admits everything while closed, nothing while cooling or probing, and otherwise one probe |
| `Breakers.CircuitBreaker.AbandonProbe` | internal/app/imslp.go:318-325 | clears the probe flag for the probe and for nobody else |
| `Breakers.CircuitBreaker.Record` | internal/app/imslp.go:327-361 | only the probe's success closes an open breaker; a failure at the threshold, or a pause asked for, opens it |
| `Breakers.StepKeepsInv` | internal/app/imslp.go:264-278 | one critical section of any of the concurrent callers keeps the protocol |
| `Breakers.BreakerSafety` | internal/app/imslp_files.go:30-50 | in every interleaving of any number of callers: probing exactly when one probe is out, only while open; closed only below the threshold |
| `Breakers.OpenAdmitsOneProbe` | internal/app/imslp.go:305-316 | while open nothing is admitted but one probe at or after the end of the pause |
| `Breakers.OnlyProbeCloses` | internal/app/imslp.go:333-345 | an open breaker is closed only by its probe's success |
| `Breakers.OpenUntilNeverFalls` | internal/app/imslp.go:358-360 | the end of the pause never moves to an earlier time |
| `Breakers.ProbeCanMove` | internal/app/imslp.go:264-278 | an outstanding probe can always take its next step |
| `Breakers.ProbeFlagClears` | internal/app/imslp.go:318-332 | the probe flag is never stuck: once the probe has taken its own steps the flag has been cleared |
| `BreakerReplies.OpensOnFailuresInARow` | internal/app/imslp.go:327-360 | whatever probes and others record, a breaker is open exactly when what came since the last success of a probe holds as many failures in a row as the threshold, or a pause asked for |
| `BreakerReplies.OpenExactlyWhen` | internal/app/imslp.go:305-361 | so it is in every interleaving of callers, from what they record |
| `BreakerPauses.PauseHonouredExactlyWhen` | internal/app/imslp.go:333-361 | a pause is honoured all through a run exactly when no probe's request succeeds in it |
| `BreakerPauses.RequestedPauseIsSafeExactlyWhen` | internal/app/imslp.go:333-361 | a pause IMSLP asks for is honoured whatever follows exactly when no other caller is then a probe that may still succeed; so it is whenever no probe is out |
| `BreakerPauses.LatePauseIsDropped` | internal/app/imslp.go:336-345 | with the program's own settings a run from the start drops a pause: an earlier request is told to wait while the probe is out, and the probe succeeds |
| `RecentCaches.RecentCache.Cached` | internal/app/imslp.go:394-410 | returns the unexpired value and makes it the most recent, or drops an expired one |
| `RecentCaches.RecentCache.Store` | internal/app/imslp_files.go:135-150 | the entry becomes the most recent under its key, and the cache stays within its capacity |
| `RecentCaches.RecentCache.Insert` | internal/app/imslp.go:425-430 | the loop evicts from the end until the cache fits |
| `RecentCaches.CacheReflectsHistory` | internal/app/imslp.go:394-431 | after any calls the cache holds each key once, with the entry stored last, most recently used first |
| `RecentCaches.HitIsLastStored` | internal/app/imslp_files.go:117-134 | a hit is the value last stored under the key, unexpired |
| `RecentCaches.EvictsLeastRecent` | internal/app/imslp.go:426-430 | what a store evicts is the key used longest ago |
| `RecentCaches.StaysWhileOthersFit` | internal/app/imslp.go:412-431 | an entry stays as long as fewer other keys than the capacity are used |
| `PreparedPages.PreparedPageCache.Get` | web/src/app/features/prepare/prepare-processing.ts:96-102 | a hit returns the value and makes it the most recent; nothing else changes |
| `PreparedPages.PreparedPageCache.Set` | web/src/app/features/prepare/prepare-processing.ts:104-114 | the new list is the old one without the key, the new page last, trimmed to both budgets |
| `PreparedPages.PreparedPageCache.Delete` | web/src/app/features/prepare/prepare-processing.ts:116-121 | removes the key and its bytes from the total |
| `PreparedPages.PreparedPageCache.Take` | web/src/app/features/prepare/prepare-processing.ts:123-127 | returns the value and removes it |
| `PreparedPages.PreparedPageCache.Clear` | web/src/app/features/prepare/prepare-processing.ts:129-132 | leaves nothing, of no bytes |
| `PreparedPages.TrimmedIsMinimal` | web/src/app/features/prepare/prepare-processing.ts:109-113 | trimming drops the fewest oldest pages that bring count and bytes within budget |
| `PreparedPages.CacheReflectsHistory` | web/src/app/features/prepare/prepare-processing.ts:75-133 | after any calls the cache holds distinct keys with the values set last, in order of use |
| `JpegOrientations.JpegOrientation` | web/src/app/features/prepare/processing-algorithms.ts:81-120 | the scan and the directory loop end and return what the file says, every EXIF read inside its segment |
| `JpegOrientations.NeverGuessed` | web/src/app/features/prepare/processing-algorithms.ts:76-80 | for any bytes the answer is undefined or 1 to 8, and any answer but 1 is an orientation entry that lies inside an Exif segment |
| `JpegOrientations.ExifReadsOnlyItsSegment` | web/src/app/features/prepare/processing-algorithms.ts:92-115 | the answer of an Exif segment depends on nothing outside it |
| `JpegOrientations.OrientationRoundTrip` | web/src/app/features/prepare/processing-algorithms.ts:81-120 | a file without fill bytes reads back as what it was written to mean, its orientation or upright without one, in either byte order and whatever surrounds the entry, exactly when its directory has at most 1024 fields; with more it is undefined |
| `JpegOrientations.ManyFieldsHideOrientation` | web/src/app/features/prepare/processing-algorithms.ts:107 | a picture on its side whose directory has 1024 fields after the orientation, in ascending order: the orientation is not read |
| `JpegOrientations.NoExifIsUpright` | web/src/app/features/prepare/processing-algorithms.ts:88 | a file without fill bytes whose scan data starts without an Exif segment has orientation 1 |
| `JpegOrientations.SignatureAsNumbers` | web/src/app/features/prepare/processing-algorithms.ts:92-97 | the two numbers compared are the six bytes of the signature |
| `JpegFills.FileSaysExactly` | web/src/app/features/prepare/processing-algorithms.ts:85-119 | of any file, fill bytes or not and of any number of fields: what is read of its directory if no marker is filled, and otherwise what the scan finds where the two bytes after the first fill byte lead |
| `JpegFills.ReadBackExactlyWhen` | web/src/app/features/prepare/processing-algorithms.ts:85-119 | what a file means is read back exactly when no marker is filled and its directory has at most 1024 fields, or some marker is filled and the jump from the first such leads to segments that say the same |
| `JpegFills.FillNearEndIsUndefined` | web/src/app/features/prepare/processing-algorithms.ts:89-91 | where the first filled marker m is less than 256 m + 2 bytes from the end, the answer is undefined |
| `JpegFills.FillLosesOrientation` | web/src/app/features/prepare/processing-algorithms.ts:89-91 | one fill byte before the Exif segment of a picture on its side, and its orientation is undefined |
| `JpegFills.FillMakesUpright` | web/src/app/features/prepare/processing-algorithms.ts:87-90 | one fill byte, and scan data where the jump leads: the picture is said to be upright |
| `ExportPaths.ExportScorePath` | internal/app/export.go:328-355 | the loop over the title computes the path |
| `ExportPaths.BaseIsPortable` | internal/app/export.go:333-349 | whatever the title, the name is not empty, at most 120 bytes, free of control, format and reserved characters, and not framed by spaces or stops |
| `ExportPaths.PathsAreDistinct` | internal/app/export.go:350-354 | two ordinals never give the same path, whatever titles and identifiers, and no path is a metadata file's |
| `Exports.PageIsNext` | internal/app/export.go:74-113 | a page after the last identifier seen is the next hundred records of the snapshot |
| `Exports.Exporter.WriteExportScore` | internal/app/export.go:256-326 | for any reader: ends, and succeeds only with an entry of the recorded length and digest |
| `Exports.Exporter.Visit` | internal/app/export.go:184-241 | each pass adds its part of one record |
| `Exports.Exporter.Walk` | internal/app/export.go:144-173 | a walk that succeeds has visited every record of the snapshot once and in order |
| `Exports.Exporter.WriteMetadata` | internal/app/export.go:176-232 | a metadata file that succeeds lists every record once and in order, with the same paths |
| `Exports.Exporter.StreamLibrary` | internal/app/export.go:138-254 | all or nothing: success means a complete archive, committed before it was closed; any failure before the close means it is never closed |
| `Exports.ScoresMatchRecords` | internal/app/export.go:236-245 | a complete archive has exactly the scores of the records with a PDF, each verified |
| `Exports.NamesAreDistinct` | internal/app/export.go:350-354 | the names in a complete archive are pairwise distinct |
| `StatusSaves.StatusRow.ChangeStatus` | web/src/app/features/library/library.store.ts:231-248 | shows the choice and queues its save, unless it is shown already |
| `StatusSaves.StatusRow.SaveStatus` | web/src/app/features/library/library.store.ts:322-325 | sends a request only for the latest choice |
| `StatusSaves.StatusRow.Saved` | web/src/app/features/library/library.store.ts:325-327 | remembers what was saved, and shows it if it is still the latest choice |
| `StatusSaves.StatusRow.Failed` | web/src/app/features/library/library.store.ts:328-333 | puts back what was last saved if the choice is still the latest |
| `StatusSaves.StatusRow.Done` | web/src/app/features/library/library.store.ts:246-247 | forgets the row only when nothing is queued |
| `StatusSaves.SavesConverge` | web/src/app/features/library/library.store.ts:231-248 | for any choices, successes and failures: requests go out one at a time in choice order, and a drained row shows what the server has, which is the last choice if its save succeeded |
| `StatusSaves.LastChoiceIsSent` | web/src/app/features/library/library.store.ts:323 | the last choice is never skipped |
| `StatusSaves.QueueCanDrain` | web/src/app/features/library/library.store.ts:231-248 | the queue is never stuck: from any state saves that succeed empty it, and row and server then have the last choice |
| `WakeLocks.ScreenWakeLock.Start` | web/src/app/features/reader/screen-wake-lock.ts:44-51 | becomes active and asks for a lock, once |
| `WakeLocks.ScreenWakeLock.Stop` | web/src/app/features/reader/screen-wake-lock.ts:53-61 | becomes inactive, awaits nothing and releases what is held |
| `WakeLocks.ScreenWakeLock.OnVisibilityChange` | web/src/app/features/reader/screen-wake-lock.ts:26-33 | asks for a lock when shown; drops everything when hidden |
| `WakeLocks.ScreenWakeLock.Acquire` | web/src/app/features/reader/screen-wake-lock.ts:63-90 | asks only while active, visible, without a lock and without a request |
| `WakeLocks.ScreenWakeLock.AcceptSentinel` | web/src/app/features/reader/screen-wake-lock.ts:92-119 | keeps a granted lock only if it answers the current request; releases it otherwise |
| `WakeLocks.ScreenWakeLock.OnRelease` | web/src/app/features/reader/screen-wake-lock.ts:104-109 | forgets the lock that was released, and no other |
| `WakeLocks.WakeLockNeverLeaks` | web/src/app/features/reader/screen-wake-lock.ts:18-143 | in every interleaving each granted lock is the one held or has been released; none is held after stop, nor while hidden once the handler has run |
| `WakeLocks.LateGrantIsReleased` | web/src/app/features/reader/screen-wake-lock.ts:92-102 | a grant that answers no current request is released and changes nothing |

## Left out

- HTTP handlers, routing, sessions, OAuth, metrics, configuration and migrations: plumbing.
- PDF, image and CCITT decoding, rendering, page layout and staff analysis: they rest on
  libraries; "valid with n pages" is taken as given.
- Unicode tables and normalisation, collation, the regular expressions that compute a composer
  sort key, and similarity ranking: kept as parameters or not modelled.
- The order of search results beyond the exact-term rank (`filterAndSort`, `matchRank`).
- What one cleaner pass achieves over time: the queue is read a hundred keys at a time and rows
  that stay referenced are not moved back, so no claim is made that it drains; its order and
  attempt counts are not modelled either.
- Reader states, preferences and duplicate warnings of a finalisation.
- Lengths and links of metadata, and the checks on IMSLP ownership of a title, are one verdict
  of each request.
- User deletion, and what old replicas write as search text: theirs is taken as stale until all
  are rebuilt (their sort keys are modelled).
- Refreshing, favourite toggles and reloads of the library page while status saves are pending.
- ScoreDatabases.ScoreDatabase.CleanupImports: one pass with nothing in between; passes that
  interleave with everything else are steps of ScoreProtocol.
- Manifests.ValidateManifest: numbers are exact reals, so NaN and infinities, which the program
  refuses, do not occur; which message a refusal carries is not modelled.
- ScoreDatabases.ScoreDatabase.CreateImport: the title, composer and links a draft starts from
  are in LibraryRows; a piece identifier that is no UUID is not found rather than invalid.
- RecentCaches.RecentCache.Store: the choice between the two lifetimes of an entry is the
  caller's.
- FoldOffsets.FoldedWords: words are told apart as ASCII, which is all the recognisers match.
- The order in which a query reads the pieces of a list, by title in lower case, is any order.
- PieceStores.PieceStore.FinalizeMetadata: the metadata alone; the manifest, the PDF and the
  content revision are in ScoreDatabase.
- Exports.Exporter.StreamLibrary: the bytes of JSON and CSV, and the escaping of CSV cells; a
  metadata file is the list of its records. Contexts are checks that may fail at any time.
- Composers.ComposerStore.MergeComposers: a fingerprint is what it digests, not its digest.
