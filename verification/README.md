# Harmonist: a verified model of its decisions

Harmonist keeps a music library in step with MusicBrainz and Bandcamp. What makes it trustworthy is that its
decisions agree with one another across many pieces of code: what it would write it settles on, what it keeps it
keeps as promised, which changes its pages leave out is known exactly, and what it resumes it never skips. This project
models those decisions in Dafny and proves how far they do agree.

`dafny verify dfyconfig.toml` checks the whole project.

| file | what it models |
|---|---|
| `Artwork`, `ArtworkOutcome`, `ArtworkSettles`, `ArtworkChoices`, `ArtworkDownloads` | the artwork plan: what an album's tracks and folder cover would be given, which image each ends up with, and applying it |
| `ChoiceText` | the text a set of artwork choices is kept as |
| `TrackAssign`, `TrackRules`, `TrackColumns`, `ColumnRules`, `TrackTable`, `TableRules`, `TrackMarks`, `DiscHeadings` | the track comparison: which file is which track, which tags get a column, the rows, the disc headings, and what all of them mark |
| `ArtworkStore`, `Backups`, `Directory` | the store of replaced artwork, and the promise it keeps under a size cap |
| `ImageCache`, `Directory` | the archive-image cache, least recently used first |
| `AliasWalk` | album ids that have moved, followed forwards and backwards |
| `LibraryIndex` | the index of sidecars, kept current one write at a time |
| `NfoImages`, `ShownPictures`, `ArtistFolders` | artist pictures, which one is shown, refreshed incrementally, and which folders are one artist's |
| `Checkpoint`, `LinkSurvey`, `Backfill`, `BackfillRules` | the Bandcamp sync: the checkpoint, the survey of unlinked albums, and linking ignored purchases to them in two phases |
| `Archive` | archiving an album: zip, verify, delete |
| `AutoApply`, `PassProgress` | the tick and the selections over one pass lock, and what they get done |
| `Images` | an image's size, from its first bytes |

Digests, paths, ids and tag values are opaque or plain strings. Where the program changes state in place, the model is
a class or a method with the same loop, proved against a function; the laws are then proved about that function. The
modules named for rules and outcomes say what the function comes to without it: a rule with no memory, stated on the
inputs alone, that decides every case. Where one of the program's own laws holds only under a condition, the exact
condition is proved, and an input at which the law fails is a lemma too:

| the law fails at | exactly when it holds |
|---|---|
| `ArtworkSettles.GapsUnsettleAPlan` | `ArtworkSettles.PlanSettlesExactly` |
| `ArtworkDownloads.ALateHeaderIsMissed` | `ArtworkDownloads.RangedCheckMissesExactly` |
| `LibraryIndex.SharedUrlIsLost` | `LibraryIndex.EqualsEveryRebuildExactly`, `LibraryIndex.UpsertKeepsCompleteExactly`, `LibraryIndex.RemoveKeepsCompleteExactly` |
| `TrackMarks.ASilentFirstDiscIsMissed` | `TrackMarks.NumberIsShownExactly`, `TrackMarks.DiscIsShownExactly` |
| `TrackMarks.AMediumChangeCanHide` | `TrackMarks.MediumTagsAreShownExactly` |
| `DiscHeadings.AStatedCountIsMissed` | `DiscHeadings.HeadingsMarkTheChangesExactly` |
| `NfoImages.TwoHopsGoStale` | `NfoImages.RefreshGoesStaleExactly` |
| `Backfill.AnUntitledAlbumCanMatch` | `Backfill.UntitledAlbumIsLinkedExactly` |
| `LinkSurvey.ALinkWithoutAUrlIsMissed`, `LinkSurvey.AnUnreadableSidecarIsMissed` | `LinkSurvey.SecondLinksComeExactly` |
| `Archive.TheRootItselfWouldBeLost` | `Archive.ArchiveIsSparedExactly` |

## Model

| member | source | states |
|---|---|---|
| `ArtworkSettles.BeatsIsStrict` | src/harmonist/artwork.py:185-205 | Beating another image is a strict partial order: no image beats itself or its beater, and it carries over. One of unknown size neither beats nor is beaten. |
| `Artwork.PickCover` | src/harmonist/artwork.py:888-896 | The loop over cover, tracks' own image and archive image ends with the one the rule prefers. |
| `ArtworkSettles.BestCoverUnbeaten` | src/harmonist/artwork.py:888-896 | The image picked for the folder cover is beaten by none of those offered. |
| `ArtworkSettles.OverwriteSettles` | src/harmonist/artwork.py:804-807 | Told to overwrite, one application puts the folder cover's image on every track, or without a readable cover changes no track, and leaves nothing to plan. |
| `ArtworkSettles.PerTrackSettles` | src/harmonist/artwork.py:811-849 | An album whose tracks carry images of their own settles in one application, and its tracks are left exactly as they were. |
| `ArtworkSettles.PickedSettles` | src/harmonist/artwork.py:851-860 | A front the user picked is on every track after one application, and on the folder cover unless there was none and none is to be made; and nothing is left to plan. |
| `ArtworkSettles.SizeRuleSettles` | src/harmonist/artwork.py:862-910 | Under the size rule, one application settles unless filling the gaps made a larger image cheap enough to embed. |
| `ArtworkSettles.PlanSettlesExactly` | src/harmonist/artwork.py:524-599 | Applying the plan and planning again plans nothing, if and only if filling the gaps does not bring a larger image under the growth bound. |
| `ArtworkSettles.PlanSettles` | src/harmonist/artwork.py:524-599 | So it does for a lossless album, one with a folder cover, one whose policy is to create the cover, and one with art on every track. |
| `ArtworkSettles.TwoPlansSettle` | src/harmonist/artwork.py:524-599 | In every case two applications reach a plan that changes nothing. |
| `ArtworkSettles.GapsUnsettleAPlan` | src/harmonist/artwork.py:913-924 | A lossy album with gaps and no cover whose second plan still writes: the exception is real. |
| `ArtworkOutcome.TrackIsPlannedExactly` | src/harmonist/artwork.py:524-599 | For any options: a track is written if and only if an image is wanted of it and it does not hold that image already, and then with that one. The image is the one its carrier's own choice names; else the front where it holds a stand-in; else, on an album of one image, the front picked, the tracks' first image unless a larger front may displace it, the folder cover's or the front; or the folder cover's when told to overwrite. |
| `ArtworkOutcome.CoverIsPlannedExactly` | src/harmonist/artwork.py:602-910 | So for the folder cover, which per-track artwork leaves to the front alone; where it is not written it is renamed if and only if it is named for another type, the right name is free and it was not to be kept. Where each write lands is stated too. |
| `ArtworkOutcome.TrackEndsExactly` | src/harmonist/artwork.py:524-599 | Carried out, the plan leaves on each track the image wanted of it, or the track as it was. |
| `ArtworkOutcome.CoverEndsExactly` | src/harmonist/artwork.py:524-599 | So it does for the folder cover. |
| `ArtworkOutcome.SuggestionGets` | src/harmonist/artwork.py:731-910 | The suggestion is for exactly one image for the tracks and one for the folder cover, or none, whichever of the override, per-track artwork, a picked front and the size rule applies. |
| `ArtworkOutcome.ForTracksIs` | src/harmonist/artwork.py:862-886 | The tracks' own image unless, with no folder cover, the front is larger and the audio lossless or the album's bytes grow by at most a tenth; else the folder cover's, else the front. |
| `ArtworkOutcome.ForCoverIs` | src/harmonist/artwork.py:888-896 | The tracks' image where it is larger than the folder cover or there is none, else the cover's; and the front where it is larger than that, or there is neither. |
| `ArtworkOutcome.GivenExactly` | src/harmonist/artwork.py:587-596 | A carrier is given the front exactly when it holds a stand-in that is not the front itself, and the front was not excluded. |
| `ArtworkOutcome.PreservesExactly` | src/harmonist/artwork.py:725-727 | A plan says it preserves per-track artwork exactly when there is some and it writes to no track. |
| `ArtworkSettles.PlainPlansAreComplete` | src/harmonist/artwork.py:409-416 | Every write of a plan finds its image in the plan's table. |
| `ArtworkChoices.TrackChoicesAreAFrame` | src/harmonist/artwork.py:639-728 | A track whose carrier was not chosen for is written exactly as suggested; one kept is not written; one given an image gets that image, once, unless it holds it already. |
| `ArtworkChoices.CoverChoicesAreAFrame` | src/harmonist/artwork.py:639-728 | The same for the folder cover, up to the rename that follows the format of what it holds. |
| `ArtworkChoices.EachTargetOnce` | src/harmonist/artwork.py:639-728 | No path is written twice, and the folder cover at most once. |
| `ArtworkChoices.TableIsExact` | src/harmonist/artwork.py:717-720 | The image table holds exactly the digests the writes leave behind, so looking one up never fails. |
| `ArtworkChoices.AdditionsLoseNothing` | src/harmonist/artwork.py:419-423 | Carrying out only the additions removes no image the album carried, and adds all that carrying out everything would add. |
| `ArtworkChoices.KeptChanges` | src/harmonist/artwork.py:676-681 | The loop that keeps the suggestion's writes for carriers not chosen for. |
| `ArtworkChoices.TakeForTracks` | src/harmonist/artwork.py:682-700 | The loop that takes the chosen images and the writes they need. |
| `ArtworkChoices.ListForTracks` | src/harmonist/artwork.py:710-715 | The loop that lists each track's write in album order. |
| `ArtworkChoices.LayChoices` | src/harmonist/artwork.py:639-728 | All the loops together compute the plan that the frame laws are about. |
| `ArtworkDownloads.SkippedImageChangesNothing` | src/harmonist/artwork_updates.py:541-564 | When the filter would not fetch the archive's front, the plan with that front is the plan without it. |
| `ArtworkDownloads.FetchedExactly` | src/harmonist/artwork_updates.py:541-564 | A front is fetched if and only if something holds a borrowed image, or the album lacks an image or a cover it could have, or the front is wider than the one image it could replace. |
| `ArtworkDownloads.UsedImageIsFetched` | src/harmonist/artwork_updates.py:541-564 | Whenever a plan writes the archive's image, the filter's threshold is negative or below the image's width. |
| `ArtworkDownloads.RangedCheckMissesExactly` | src/harmonist/cover_art.py:267-283 | The check measures only the first 64 KB: a front the plan would write is left unfetched if and only if the threshold is a width and that part of the image does not reach its size. |
| `ArtworkDownloads.ALateHeaderIsMissed` | src/harmonist/cover_art.py:175-183 | Such a front: 200 by 200 for a lossless album whose one track holds 100 by 100, behind a metadata segment of the greatest length. |
| `ChoiceText.Parse` | src/harmonist/artwork.py:276-293 | The loop keeps exactly the valid parts of any text. |
| `ChoiceText.ParseFormat` | src/harmonist/artwork.py:276-299 | Parsing what was formatted gives the same choices. |
| `ChoiceText.NormalForm` | src/harmonist/artwork.py:276-299 | Whatever the text, formatting what was parsed is a normal form that a second round leaves unchanged. |
| `ChoiceText.FormatIsInjective` | src/harmonist/artwork.py:296-299 | Different choices have different texts. |
| `ChoiceText.LastPartWins` | src/harmonist/artwork.py:276-293 | Of two parts for one carrier the last wins. |
| `ChoiceText.OnePartIsRead` | src/harmonist/artwork.py:276-293 | A part is read if and only if its carrier is the cover, none or a digest of 64 hex digits, and its choice is keep, archive or an id of up to 20 digits. |
| `ChoiceText.SortedAscends` | src/harmonist/artwork.py:296-299 | The carriers are written in the order of their text. |
| `TrackAssign.UniqueSlots` | src/harmonist/compare.py:2997-3007 | Exactly the keys MusicBrainz says once, each at its own track. |
| `TrackAssign.Climb` | src/harmonist/compare.py:2973-2988 | One rung: each file not yet placed takes the track it alone names, unless a better rung gave it away. |
| `TrackAssign.Assign` | src/harmonist/compare.py:2934-2994 | The ladder's loops compute the assignment the laws below are about. |
| `TrackAssign.LadderIsAnInjection` | src/harmonist/compare.py:2934-2994 | Every slot is a track of the release, and no track goes to two files. |
| `TrackAssign.LadderIsMaximal` | src/harmonist/compare.py:2934-2994 | As many files are placed as there are files or tracks, whichever is fewer. |
| `TrackAssign.SharedIdDecides` | src/harmonist/compare.py:2934-2994 | A release track id both sides say once always decides. |
| `TrackAssign.SharedNumberDecides` | src/harmonist/compare.py:2934-2994 | Failing an id, a disc and number both sides say once decides, unless an id gave the track away. |
| `TrackAssign.LeftoversInOrder` | src/harmonist/compare.py:2990-2994 | Files left by both rungs take the free slots in increasing order. |
| `TrackAssign.SilentFilesPairByPosition` | src/harmonist/compare.py:2954-2957 | An album whose files say nothing is paired by position. |
| `TrackAssign.ReviewSlots` | src/harmonist/compare.py:3020-3040 | The loop that lets a confirmed release's own files override the ladder. |
| `TrackAssign.ReviewConfirmsOrClears` | src/harmonist/compare.py:3024-3040 | The override moves no file to another track: it restates the ladder's slot or clears it. |
| `TrackAssign.ReviewIsAnInjection` | src/harmonist/compare.py:3010-3048 | So the assignment stays injective and in range. |
| `TrackAssign.ConfirmedFilesAreTakenAtTheirWord` | src/harmonist/compare.py:3027-3036 | A confirmed file with an id is placed only at the track of that id, and one without any is placed nowhere. |
| `TrackAssign.AssignFiles` | src/harmonist/compare.py:3041-3048 | The files under their tracks, and the rest in order. |
| `TrackAssign.NoFileIsLost` | src/harmonist/compare.py:3041-3048 | Each file is under exactly one track or among the leftovers exactly once, never both. |
| `TrackRules.LadderExactly` | src/harmonist/compare.py:2934-2994 | A file is at a track if and only if it says it is that one, by a release track id both sides say once or, failing an id, by a disc and number both say once and no id took; the others take the unclaimed tracks in file order, the kth the kth. |
| `TrackRules.ReviewedExactly` | src/harmonist/compare.py:3010-3040 | A file of the confirmed release is at a track if and only if it shares its id with it, or has only a recording's id and the ladder put it there; any other file is where the ladder put it. |
| `TrackColumns.BandExactly` | src/harmonist/compare.py:2273-2301 | A tag is named in the band if and only if it earns nothing: it is not the title, nor stated by the number column or the disc headings, and no rule gives it a column. |
| `TrackColumns.ChooseColumns` | src/harmonist/compare.py:2248-2335 | The loop over the candidates computes the choice the laws below are about. |
| `ColumnRules.EarnsExactly` | src/harmonist/compare.py:2064-2130 | A tag earns a place of its own if and only if tracks disagree about it on either side (the medium's tags on several discs apart), or its comparisons differ and not all alike, or an artist, its sort name or its ids on some track and one side are there and are not the album's. |
| `ColumnRules.PlacedExactly` | src/harmonist/compare.py:2248-2335 | Every tag is exactly where a rule with no memory puts it, stated on the readings: heading, band, credit, inside the tag that says it and changes with it, rider, column off the cap for an identifier, and a column or an overflow line as fewer than three others before it compete or not. |
| `ColumnRules.ListedInOrder` | src/harmonist/compare.py:2248-2335 | Columns, overflow lines and band are in column order. |
| `ColumnRules.CreditsExactly` | src/harmonist/compare.py:3123-3151 | A credit has a line where either side has a value; a rider has one only where it changes and its credit does not. |
| `ColumnRules.OverflowExactly` | src/harmonist/compare.py:2323-2334 | A tag that overflowed has a line under each track where either side has a value, and no other line is there. |
| `ColumnRules.LineStates` | src/harmonist/compare.py:3154-3226 | A cell or line states both readings and how they compare. |
| `ColumnRules.BandStatesAReading` | src/harmonist/compare.py:2338-2403 | Where the band marks no change it states a value somebody has, and none only where nobody has one. |
| `TrackColumns.EachTagInOnePlace` | src/harmonist/compare.py:2248-2335 | Every per-track tag is stated in exactly one place: number column, disc heading, column, band, inside another tag, credit list, rider or overflow. |
| `TrackColumns.AtMostThreeEarned` | src/harmonist/compare.py:2323-2334 | At most three capped columns are kept, and a tag overflows only once three are. |
| `TrackColumns.BandStatesEveryTrack` | src/harmonist/compare.py:2338-2403 | A change in the band holds of every track: one value on disk, one in MusicBrainz. |
| `TrackColumns.BandMarksExactly` | src/harmonist/compare.py:2364-2403 | The band marks a change exactly when some track would change and both sides read one way. |
| `TrackColumns.ListCredits` | src/harmonist/compare.py:3123-3151 | The loop over the credits lists exactly the lines the laws are about. |
| `TrackColumns.NoPendingChangeIsInvisible` | src/harmonist/compare.py:2248-2335 | Wherever a file's tag would change, its row marks it, in a cell or on a line of the tag or of the tag that absorbed it, or the band does. The track number, and on several discs the disc number and the medium's tags, have the laws below instead. |
| `TrackColumns.MediumTagsAreMarkedExactly` | src/harmonist/compare.py:2092-2103 | The medium's tags on several discs, with no heading: the choice of columns marks a change if and only if the tag earns a column by parting company with MusicBrainz, or both sides read one way throughout. |
| `TrackTable.Prepare` | src/harmonist/compare.py:2563-2624 | Assigns the files, collects those present and chooses the columns. |
| `TrackTable.BuildRows` | src/harmonist/compare.py:2626-2720 | The loops over release tracks and leftover files build the rows. |
| `TrackTable.Tracklist` | src/harmonist/compare.py:2531-2755 | The whole table, from files, release and review. |
| `TrackTable.EveryFileOnOneRow` | src/harmonist/compare.py:2626-2720 | Every file is on exactly one row. |
| `TrackTable.EveryTrackOnOneRow` | src/harmonist/compare.py:2626-2720 | Every release track is on exactly one row, but an accepted pregap without a file, which is on none. |
| `TrackTable.EveryRowFitsTheColumns` | src/harmonist/compare.py:2729-2732 | Every row has one cell for every column, under its own heading, the MusicBrainz length and the format included. |
| `TrackTable.FormatsAlign` | src/harmonist/compare.py:2821-2864 | Putting the format column in keeps every cell under its heading. |
| `TrackTable.EveryPendingChangeIsShown` | src/harmonist/compare.py:2531-2755 | On the finished table, every change a re-tag would make to a readable audio file is marked on that file's row or in the band, but for the track number and, on several discs, the disc number and the medium's tags, which have the laws below. |
| `TableRules.HeadingsExactly` | src/harmonist/compare.py:2720-2755 | The table's headings are the number, the chosen tags, the format if and only if audio files differ in it, the length, and MusicBrainz's length if and only if some file under a track of its own is off by more than four seconds. |
| `TableRules.EveryRowsState` | src/harmonist/compare.py:2626-2720 | A row is missing, unreadable, extra or present exactly as its file and its track say. |
| `TableRules.UncomparedRowsFindNothing` | src/harmonist/compare.py:2626-2720 | Nothing on the row of a video, or of a file that is no track, is a finding or an advisory. |
| `TableRules.LengthsCompare` | src/harmonist/compare.py:3228-3260 | A length is never a finding, and an advisory if and only if both are known and more than four seconds apart. |
| `TableRules.MbLengthSays` | src/harmonist/compare.py:3262-3306 | MusicBrainz's length is stated on the rows that are off, and on no other. |
| `TableRules.RolledUpExactly` | src/harmonist/compare.py:2406-2430 | The headings state the medium's three tags if and only if the release has several discs, some file is compared, and any two on one disc agree about all three. |
| `TableRules.PresentAre` | src/harmonist/compare.py:2602-2612 | The columns are judged over exactly the readable files that are tracks, each beside its track, a video beside nothing. |
| `TrackMarks.ShownExactly` | src/harmonist/compare.py:2531-2755 | The finished table marks nothing more: what the file's row and the band mark is exactly what the choice of columns marks for that file. |
| `TrackMarks.NumberIsShownExactly` | src/harmonist/compare.py:3171-3176 | The finished row marks the number if and only if the track numbers differ or, on several discs, the disc numbers do, one left out counting as the first; so a change of the track number is always shown. |
| `TrackMarks.DiscIsShownExactly` | src/harmonist/compare.py:2048-2061 | On several discs a change of the disc number is shown in the number column or nowhere, and exactly when the number reads differently. |
| `TrackMarks.ASilentFirstDiscIsMissed` | src/harmonist/compare.py:3292-3297 | So giving a file of the first disc the disc number it lacks is a change shown nowhere: a whole table at which it happens. |
| `TrackMarks.MediumTagsAreShownExactly` | src/harmonist/compare.py:2338-2403 | On a finished table of several discs whose headings do not state the medium's tags, a change of one is shown if and only if the tag parts company with MusicBrainz or both sides read one way on every track. |
| `TrackMarks.AMediumChangeCanHide` | src/harmonist/compare.py:2354-2362 | So it can be shown nowhere: three files, all CD, the first disc's two disagreeing about the track total, and MusicBrainz with no medium for the second disc. |
| `DiscHeadings.BuildHeadings` | src/harmonist/compare.py:2433-2486 | The loops over files, media and tracks build one heading a disc that has files, and any at all exactly when the columns are told so. |
| `DiscHeadings.HeadingIsGiven` | src/harmonist/compare.py:2433-2486 | A heading is given the name and format of the last medium of its position, where they have any, and the number of tracks on the disc. |
| `DiscHeadings.HeadingSpeaksForEveryFile` | src/harmonist/compare.py:2406-2430 | A heading reads for every file of its disc what that file reads, and marks a tag if and only if the file differs from what the release's media say of the disc. |
| `DiscHeadings.HeadingsMarkTheChangesExactly` | src/harmonist/tagger.py:2461-2533 | The release's media and its tracks' tags coming from one answer, a heading marks exactly the changes of the medium's tags, and they are marked nowhere else; but for the track total of a medium that states another count than it lists, where a file with one of the two numbers is marked wrongly or wrongly not marked. |
| `DiscHeadings.AStatedCountIsMissed` | src/harmonist/mb_tracks.py:16-24 | Such a table: a medium that states two tracks and lists one, and a file that says one, whose change the heading does not mark. |
| `Backups.GatherRows` | src/harmonist/activity_store.py:798-877 | The loop over the interleaved rows gathers each action's replaced images, newest first. |
| `Backups.SameUnitExactly` | src/harmonist/activity_store.py:798-877 | Two records are of one change if and only if they are of one album and one action, or without an action one event. |
| `Backups.ReplacedExactly` | src/harmonist/activity_store.py:798-877 | A record replaced an image if and only if it names one, and another after it or none. |
| `Backups.ArtworkBackups` | src/harmonist/activity_store.py:798-877 | The backups listed are exactly the actions that replaced an image, each with all of its images. |
| `Backups.ProtectedDigests` | src/harmonist/artwork_store.py:232-273 | The protected digests are exactly the union, per album, of what its newest actions replaced. |
| `Backups.PromisedByPosition` | src/harmonist/artwork_store.py:232-273 | A digest is promised if and only if fewer than the kept number of its album's backups come before one that holds it. |
| `Backups.EarlierIsNewer` | src/harmonist/activity_store.py:844-877 | The place of a backup in the list is the number of newer actions. |
| `Directory.Usage` | src/harmonist/artwork_store.py:206-208 | The bytes in a directory. |
| `Directory.SortByAge` | src/harmonist/artwork_store.py:309-313 | The files of a class, oldest first. |
| `Directory.DropOldest` | src/harmonist/artwork_store.py:314-322 | The eviction loop deletes the oldest until the total is within the cap, and no further. |
| `ArtworkStore.ArtworkStore.KeepAll` | src/harmonist/artwork_store.py:105-170 | Stores the images, evicts, and returns the digests still on disk. |
| `ArtworkStore.ArtworkStore.EvictIfOverCap` | src/harmonist/artwork_store.py:276-334 | Evicts the unguarded by age and then the guarded by age, only while over the cap. |
| `ArtworkStore.TwoPassesEvict` | src/harmonist/artwork_store.py:276-334 | A protected or pending image goes only once no other is left, oldest first within each class. |
| `ArtworkStore.DroppedInOrder` | src/harmonist/artwork_store.py:276-334 | No image promised or pending goes before one that is neither, and within each class none before an older one. |
| `ArtworkStore.EvictionEndsWithinCap` | src/harmonist/artwork_store.py:276-334 | When deletions succeed, the store ends within the cap. |
| `ArtworkStore.PromiseIsKept` | src/harmonist/artwork_store.py:276-334 | When protected and pending bytes fit the cap, none of them is dropped. |
| `ArtworkStore.EverythingPendingIsRetained` | src/harmonist/artwork_store.py:105-170 | Then every image just stored is among those returned. |
| `ArtworkStore.StoredIsOnDisk` | src/harmonist/artwork_store.py:105-170 | Every image whose write succeeded is on disk before eviction, under its digest. |
| `ArtworkStore.StoredSizes` | src/harmonist/artwork_store.py:105-170 | After the writes the store holds of any digest the file that was there, as long as it was, or else the first image written under it, with its full size. |
| `ArtworkStore.StoredIsWhole` | src/harmonist/artwork_store.py:105-170 | So where one digest is one image, in the store already too, every image whose write succeeded is there whole, and no other digest's file has changed. |
| `ArtworkStore.StoredIsReferenced` | src/harmonist/artwork_store.py:105-170 | Every image stored counts as referenced since the writes began, one held already too; no other file is touched. |
| `ArtworkStore.ArtworkStore.PathFor` | src/harmonist/artwork_store.py:173-186 | The file that holds a digest, whichever its suffix. |
| `ImageCache.ImageCache.CacheImage` | src/harmonist/cover_art.py:700-726 | After a write the new image is present, whatever format was there before. |
| `ImageCache.ImageCache.EvictOverCap` | src/harmonist/cover_art.py:729-780 | Evicts by last use, never the image just written. |
| `ImageCache.OnePassEvicts` | src/harmonist/cover_art.py:729-780 | The total is within the cap unless only the new image is left, and what goes was used longest ago. |
| `ImageCache.ImageCache.DiscardImage` | src/harmonist/cover_art.py:783-798 | Discarding removes both files of a release, or says that it failed. |
| `ImageCache.ImageCache.CachedFront` | src/harmonist/cover_art.py:539-554 | Serving an image stamps that one file as used now and leaves every other file as it was; serving none changes nothing. |
| `ImageCache.ReadIsLast` | src/harmonist/cover_art.py:820-829 | A read gives nothing, or exactly the bytes last cached since the last discard. |
| `ImageCache.RunAll` | src/harmonist/cover_art.py:700-829 | So it does after any run of writes, discards and reads. |
| `AliasWalk.AliasStore.RecordAlias` | src/harmonist/activity_store.py:1124-1158 | A move is recorded, replacing an earlier one of the same id. |
| `AliasWalk.AliasStore.ResolveAlias` | src/harmonist/activity_store.py:1161-1190 | The forward walk, stopping at a cycle or the hop limit. |
| `AliasWalk.AliasStore.Ancestors` | src/harmonist/activity_store.py:1237-1272 | The backward walk finds exactly the ids at distance 1 to 20, each once. |
| `AliasWalk.ResolvedIsAncestor` | src/harmonist/activity_store.py:1161-1190 | Whatever an id resolves to, cycles included, has that id among its ancestors. |
| `AliasWalk.ResolvesToCurrent` | src/harmonist/activity_store.py:1161-1190 | An id whose chain ends within the limit resolves to its end. |
| `AliasWalk.ResolvedRests` | src/harmonist/activity_store.py:1161-1190 | An id resolves to where its walk first rests: at an id never superseded, before one met already, or after 20 steps. |
| `AliasWalk.AliasStore.SelectOldIds` | src/harmonist/activity_store.py:1261-1266 | One level of the backward walk: the ids that moved into the frontier. |
| `AliasWalk.HistoryIds` | src/harmonist/activity_store.py:1211-1215 | The ids a history is read under. |
| `AliasWalk.AlbumHistory` | src/harmonist/activity_store.py:1193-1234 | Position by position, one page of everything recorded under any id the albums have had, newest first. |
| `AliasWalk.HistoryReachesBack` | src/harmonist/activity_store.py:1193-1234 | Whatever was recorded under an id is in the history of the id it resolves to. |
| `AliasWalk.HistoryDescends` | src/harmonist/activity_store.py:1193-1234 | The events come newest first. |
| `LibraryIndex.EveryRunIsValid` | src/harmonist/library_index.py:53-124 | After every run of reset, upsert, remove and clear, the slug index is exactly the grouping of the sidecars with no empty bucket, and every URL or id entry points at a directory that holds that key. |
| `LibraryIndex.RemoveKeepsCompleteExactly` | src/harmonist/library_index.py:111-117 | Removing keeps every key findable if and only if no other directory shared one of them through the entry dropped. |
| `LibraryIndex.UpsertKeepsCompleteExactly` | src/harmonist/library_index.py:100-108 | The same for a write over a stored sidecar. |
| `LibraryIndex.UnsharedRunIsComplete` | src/harmonist/library_index.py:53-124 | While no two directories share a key, every key is findable. |
| `LibraryIndex.UnsharedIndexIsUnique` | src/harmonist/library_index.py:53-124 | Two indexes of the same unshared sidecars are equal. |
| `LibraryIndex.IncrementalEqualsRebuild` | src/harmonist/library_index.py:90-124 | So the incremental index equals a rebuild. |
| `LibraryIndex.EqualsEveryRebuildExactly` | src/harmonist/library_index.py:90-124 | A sound and complete index equals every rebuild from a scan of its sidecars if and only if no two directories share a key. |
| `LibraryIndex.SharedUrlIsLost` | src/harmonist/library_index.py:63-77 | With a shared URL it does not: two albums, one removed, and the other can no longer be found. |
| `LibraryIndex.Index.AddEntries` | src/harmonist/library_index.py:53-60 | Adds one sidecar's entries. |
| `LibraryIndex.Index.DropEntries` | src/harmonist/library_index.py:63-77 | Drops one sidecar's entries, but not those another directory has taken. |
| `LibraryIndex.Index.Upsert` | src/harmonist/library_index.py:100-108 | Replaces one directory's entries. |
| `LibraryIndex.Index.Remove` | src/harmonist/library_index.py:111-117 | Forgets one directory. |
| `LibraryIndex.Index.Clear` | src/harmonist/library_index.py:120-127 | Forgets everything. |
| `LibraryIndex.Index.ResetFrom` | src/harmonist/library_index.py:90-97 | Rebuilds from a scan. |
| `LibraryIndex.Index.ItemIds` | src/harmonist/library_index.py:130-133 | Exactly the item ids indexed. |
| `LibraryIndex.Index.DirForUrl` | src/harmonist/library_index.py:136-139 | The directory a URL is indexed under. |
| `LibraryIndex.Index.SlugCopies` | src/harmonist/library_index.py:142-167 | Exactly one copy for each directory whose sidecar shares the URL's slug, saying whether it is linked, whether its host is the URL's, and its release. |
| `NfoImages.LocalImage` | src/harmonist/artist_nfo.py:270-312 | The search stops at the first picture or error, and records what it depended on. |
| `NfoImages.Resolve` | src/harmonist/artist_nfo.py:320-346 | A profile's picture, or the one failure recorded for it. |
| `ShownPictures.ShownExactly` | src/harmonist/artist_nfo.py:270-346 | A profile shows the picture of the first of its names that leads anywhere, when it is within 20 MiB, and else the error there; it depends on exactly the paths of the names tried until then. |
| `NfoImages.LookDependsExactlyOn` | src/harmonist/artist_nfo.py:296-312 | A picture found depends on exactly the paths its reference leads through: one of them is such a path if and only if some change at it alone gives another result. |
| `NfoImages.SearchIsStable` | src/harmonist/artist_nfo.py:296-312 | If nothing recorded has changed, nor any link passed on the way, the search gives the same picture and records the same paths: the record includes every entry consulted, missing ones too. |
| `NfoImages.ImageDependencies` | src/harmonist/artist_nfo.py:376-381 | Exactly the profiles that depend on each path. |
| `NfoImages.FindAffected` | src/harmonist/artist_nfo.py:384-390 | Exactly the profiles that depend on a changed path. |
| `NfoImages.RefreshImages` | src/harmonist/artist_nfo.py:383-400 | Looks up only those again, and replaces their failures. |
| `NfoImages.RefreshEqualsRecompute` | src/harmonist/artist_nfo.py:383-400 | An incremental refresh gives the profiles and the set of image failures that looking everything up again would, unless a link changed that the search of a profile left alone passes and does not record. |
| `NfoImages.EveryRunStaysCurrent` | src/harmonist/artist_nfo.py:383-400 | So it does after any run of such changes. |
| `NfoImages.OneHopRunsStayCurrent` | src/harmonist/artist_nfo.py:383-400 | Where no picture's link leads to another link, every run of changes inside the music root is such a run. |
| `NfoImages.RefreshGoesStaleExactly` | src/harmonist/artist_nfo.py:383-400 | Conversely, for any current inventory and any path, some change at that path alone leaves the refreshed inventory stale if and only if the search of a profile that does not depend on the path leads through it, so long as some picture's path is in no record. |
| `NfoImages.AnUnrecordedPathGoesStale` | src/harmonist/artist_nfo.py:383-400 | In particular a profile that shows a picture only by way of such a path goes on showing it when the path is cut. |
| `NfoImages.TwoHopsPassUnrecorded` | src/harmonist/artist_nfo.py:300-309 | A link to a link passes such a path: the one between is not recorded. |
| `NfoImages.TwoHopsGoStale` | src/harmonist/artist_nfo.py:383-400 | So a refresh can leave an inventory stale: one profile whose artwork is a link to a link to its picture, and the link between removed. |
| `ArtistFolders.DirectoryCredits` | src/harmonist/artist_nfo.py:484-507 | Each folder above an album holds exactly the artists that every album below it credits. |
| `ArtistFolders.BlockedDirs` | src/harmonist/artist_nfo.py:483-498 | An album's own folders and a box set's container are no artist's folder. |
| `ArtistFolders.ArtistDirs` | src/harmonist/artist_nfo.py:476-513 | A folder's picture is taken for an artist's if and only if the walk was complete, the folder is no album's, and every album below it, of which there is one, credits the artist. |
| `Checkpoint.Syncer.SyncItem` | src/harmonist/bandcamp_hook.py:842-1072 | From what is known of a purchase: exactly when it is downloaded, left for the user, counted as put off or as not yet released, and left owed, with the limit kept. |
| `Checkpoint.Syncer.CanDownloadTo` | src/harmonist/bandcamp_hook.py:1075-1137 | An occupied destination is left alone and the purchase stays owed. |
| `Checkpoint.Syncer.NotePreorderDeferral` | src/harmonist/bandcamp_hook.py:1140-1170 | A wanted pre-order stays owed. |
| `Checkpoint.Syncer.SaveCollectionCheckpoint` | src/harmonist/bandcamp_hook.py:406-470 | Saves the newest position older than everything unfinished, or what was saved before. |
| `Checkpoint.Syncer.SyncItems` | src/harmonist/bandcamp_hook.py:472-496 | What a whole run leaves unfinished. |
| `Checkpoint.SavedBelowUnfinished` | src/harmonist/bandcamp_hook.py:406-470 | What a run leaves unfinished is strictly newer than what it saves. |
| `Checkpoint.NoRunBuries` | src/harmonist/bandcamp_hook.py:406-470 | Over every run of full and link-only syncs, nothing owed is at or below the saved checkpoint. |
| `Checkpoint.OwedIsPagedAgain` | src/harmonist/bandcamp_hook.py:406-470 | So the next full sync pages it again. |
| `Checkpoint.OwedExactly` | src/harmonist/bandcamp_hook.py:842-1170 | From what is known of the purchases alone: one that a sync pages is owed afterwards if and only if it goes on to be downloaded and is an unreleased pre-order, or its place is taken, or as many before it as the limit can be fetched and nobody asked for it; and then the next full sync pages it. |
| `Checkpoint.OwedUntilFullSync` | src/harmonist/bandcamp_hook.py:406-470 | What is owed stays owed, and to be paged, while purchases are only made and linked. |
| `Checkpoint.BoughtIsPaged` | src/harmonist/bandcamp_hook.py:406-470 | A new purchase is paged by the next full sync, with all it would have paged before. |
| `Checkpoint.SavedIsNewestSafe` | src/harmonist/bandcamp_hook.py:406-470 | No position newer than the one saved, or than the one held, would keep everything unfinished above the checkpoint. |
| `Checkpoint.SavedIsFirstSafe` | src/harmonist/bandcamp_hook.py:406-470 | The position saved does, and the checkpoint is held only when no paged position would. |
| `Checkpoint.NeverOlder` | src/harmonist/bandcamp_hook.py:406-470 | The checkpoint never moves to an older purchase. |
| `Backfill.Linker.PairByTitle` | src/harmonist/bandcamp_hook.py:644-654 | The loop that pairs albums with the one purchase of their title. |
| `Backfill.Linker.ResolveSlugGroup` | src/harmonist/bandcamp_hook.py:618-686 | A group: a clean pair, then by title, then by elimination, then ambiguous. |
| `Backfill.Linker.BackfillIgnoredPurchases` | src/harmonist/bandcamp_hook.py:498-615 | Both phases, as the program runs them. |
| `Backfill.PairingByTitle` | src/harmonist/bandcamp_hook.py:644-654 | Every pair made is of an album and the only purchase left with its title. |
| `Backfill.PairingIsMaximal` | src/harmonist/bandcamp_hook.py:644-654 | No album is left unpaired for which exactly one purchase of its title is left. |
| `Backfill.TurnDecides` | src/harmonist/bandcamp_hook.py:644-654 | An album is linked if and only if exactly one purchase of its title is left when its turn comes, and to that one. |
| `Backfill.UntitledAlbumIsLinkedExactly` | src/harmonist/bandcamp_hook.py:274-282 | So an album with no title is linked if and only if exactly one purchase whose title reduces to nothing is left when its turn comes. |
| `Backfill.AnUntitledAlbumCanMatch` | src/harmonist/bandcamp_hook.py:274-282 | The documented rule that an untitled album matches no purchase fails: one such album and one such purchase are linked. |
| `Backfill.ResolvingSettles` | src/harmonist/bandcamp_hook.py:618-686 | Each album of a group is linked, ambiguous or handed on, exactly once. |
| `Backfill.LinksAreByTitleOrElimination` | src/harmonist/bandcamp_hook.py:618-686 | Every link in a group is the clean pair, a unique title, or the last of each. |
| `BackfillRules.PairingIsExact` | src/harmonist/bandcamp_hook.py:639-655 | A pass links an album if and only if it is the first of its title and exactly one purchase on offer has that title, and to that one. |
| `BackfillRules.ResolvedExactly` | src/harmonist/bandcamp_hook.py:618-686 | In a group: what titles link is linked; one album and one purchase left are linked to each other, last; else the albums left are tied to the purchases left, more than one of either, or with none left go to the title phase, in order. |
| `BackfillRules.BackfilledExactly` | src/harmonist/bandcamp_hook.py:498-615 | A whole backfill, on titles, slugs and ids alone: the links are those of the slugs and then those of the titles over what is left of both, an album is tied if and only if its slug ties it and to the purchases its slug leaves, and the rest stays unlinked. |
| `Backfill.FirstPhaseParts` | src/harmonist/bandcamp_hook.py:544-559 | The first phase parts all the groups' albums the same way. |
| `Backfill.BackfillIsInjective` | src/harmonist/bandcamp_hook.py:498-615 | Over both phases no purchase goes to two albums and no album is linked twice. |
| `LinkSurvey.SurveyAlbumLinks` | src/harmonist/bandcamp_hook.py:285-325 | The pass over the sidecars gathers the unlinked albums by slug, those without one, and the purchases linked already. |
| `LinkSurvey.SurveyIsSound` | src/harmonist/bandcamp_hook.py:285-325 | Only unlinked albums are offered, each in one place, and the linked purchases are exactly those of the sidecars that name a store URL. |
| `LinkSurvey.SurveyExactly` | src/harmonist/bandcamp_hook.py:285-325 | One group for each slug of an unlinked album's URL, in the order found; those of Bandcamp without a slug listed apart; and the ids of the sidecars with a store URL. |
| `LinkSurvey.NothingLinkedIsTouched` | src/harmonist/bandcamp_hook.py:498-615 | From any library, a backfill links only albums whose sidecar names no purchase, and only purchases that no sidecar with a store URL names. |
| `LinkSurvey.CanBeLinkedExactly` | src/harmonist/bandcamp_hook.py:498-615 | Some titles, purchases and ignored ids make a backfill of a library link a purchase if and only if no sidecar with a store URL names it and some unlinked album has a URL with a slug or of Bandcamp's. |
| `LinkSurvey.SecondLinksComeExactly` | src/harmonist/bandcamp_hook.py:294-302 | So a purchase that a sidecar names can be linked to a second album if and only if one so named is named by no sidecar with a store URL, and such an album is there. |
| `LinkSurvey.ALinkWithoutAUrlIsMissed` | src/harmonist/bandcamp_hook.py:315-319 | Such a library: one sidecar names the purchase and no store URL, another album is unlinked. |
| `LinkSurvey.AnUnreadableSidecarIsMissed` | src/harmonist/bandcamp_hook.py:309-314 | A sidecar that cannot be read is missed the same way: a purchase that it alone named could not be linked again while it was readable, and then can. |
| `Backfill.TitlePhaseIsExact` | src/harmonist/bandcamp_hook.py:565-588 | The second phase links only a unique remaining exact title. |
| `Images.Jpeg` | src/harmonist/images.py:86-117 | The loop computes the walk, never reads past the end and always stops. |
| `Images.JpegMeasured` | src/harmonist/images.py:86-117 | For any chain of length-prefixed segments and fill bytes before a frame header, that header's width and height (section B.2.2 of ITU-T T.81). |
| `Images.JpegSizeExactly` | src/harmonist/images.py:86-117 | A JPEG has a size if and only if such a chain leads to a frame header, and it is that header's. |
| `Images.PngMeasured` | src/harmonist/images.py:73-83 | A PNG's width and height, from its header chunk (section 11.2.2 of ISO/IEC 15948:2003). |
| `Images.PngRoundTrip` | src/harmonist/images.py:73-83 | A PNG written for any size measures that size. |
| `Images.JpegRoundTrip` | src/harmonist/images.py:86-117 | So does a JPEG, whatever segments come before its frame header. |
| `Images.DimensionsAreStable` | src/harmonist/images.py:59-117 | For every prefix, no size or the whole image's size. |
| `Images.RangedMeasurementIsRight` | src/harmonist/cover_art.py:272-278 | So an image measured from its first 64 KB is never measured wrong. |
| `Archive.UniquePath` | src/harmonist/archive.py:276-289 | A name nothing has yet, the plain one if it is free, and else the first free number: an earlier archive is never overwritten. |
| `Archive.Collect` | src/harmonist/archive.py:138-163 | Every regular file under the directories, each once, under the name that restores it; or a refusal. |
| `Archive.Write` | src/harmonist/archive.py:183-186 | However a write fails, nothing that was there changes; where nothing fails, every member is written exactly. |
| `Archive.Verify` | src/harmonist/archive.py:189-206 | Passes only an archive whose entries are sound, all there and of the right size, and where nothing fails passes every such archive. |
| `Archive.VerifiedRestores` | src/harmonist/archive.py:189-206 | Then, entries being exact, short or failing their CRC, the archive holds exactly the files collected, byte for byte, under the names that restore them. |
| `Archive.RemoveDirs` | src/harmonist/archive.py:209-236 | However deletion fails, only nodes at or below the directories go; where nothing fails they all do, if and only if no directory is listed twice or below one listed before it. |
| `Archive.Prune` | src/harmonist/archive.py:237-273 | Only empty directories between the root and those removed go, and where nothing fails none of them is left. |
| `Archive.RemovingIsSafe` | src/harmonist/archive.py:134-135 | Removing what a verified archive restores loses no file. |
| `Archive.ArchiveAndRemove` | src/harmonist/archive.py:78-135 | At every step, whatever fails, each file is in place or in the archive; a failure before the removal leaves every file; nothing outside the directories changes but folders left empty. It refuses if and only if there are no directories, one is no folder under the root, they hold no file, or the free space is under 64 MiB and their files' bytes; where nothing fails it archives the rest. |
| `Archive.ArchiveIsSparedExactly` | src/harmonist/archive.py:209-236 | The removal spares the archive if and only if the music root is not itself one of the directories. |
| `Archive.TheRootItselfWouldBeLost` | src/harmonist/archive.py:209-236 | If it were, the archive would go too, and every file under the root would be neither in place nor in an archive. |
| `AutoApply.StepKeepsInv` | src/harmonist/auto_apply.py:154-217 | Every step of the tick and the selections, and every change of a version, keeps the pass exclusive and its marks its own. |
| `AutoApply.EveryRunIsSafe` | src/harmonist/auto_apply.py:405-546 | In every run: one pass at a time, queued albums only under a claim of their kind, at most one album marked applying, and all marks gone before the lock is let go, albums failing or not. |
| `AutoApply.HoldingBacksOff` | src/harmonist/auto_apply.py:129-151 | An album the tick holds is not among those it has still to write. |
| `AutoApply.HeldIsNotRetried` | src/harmonist/auto_apply.py:97-151 | An update held at a version is written again only after its version was something else, tags and artwork alike. |
| `AutoApply.AMovedHoldIsRetried` | src/harmonist/auto_apply.py:97-151 | And once its version moves it is: a run in which a held album is written again, so the version is all that holds it back. |
| `PassProgress.EveryStepIsNearer` | src/harmonist/auto_apply.py:154-217 | Every step of a pass brings it nearer its end, and no other thread's sets it back. |
| `PassProgress.PassIsNeverStuck` | src/harmonist/auto_apply.py:154-217 | Some step of its own can always be taken. |
| `PassProgress.WritesInOrder` | src/harmonist/auto_apply.py:154-217 | Until something raises or it is closed, what a pass has begun and what it has still to begin are what it took on, in order. |
| `PassProgress.TickWritesAllItChose` | src/harmonist/auto_apply.py:176-217 | A tick that nothing interrupts writes each album it chose: tags first, then artwork, in order. |
| `PassProgress.SelectionWritesAllItClaimed` | src/harmonist/auto_apply.py:405-546 | A selection that comes to the end of its list has written all it claimed, in order. |
| `PassProgress.NothingAfterTheEnd` | src/harmonist/auto_apply.py:176-217 | Once something has raised, nothing more is begun before the pass is over. |
| `PassProgress.TagHoldsChangeExactly` | src/harmonist/auto_apply.py:129-151 | A tag hold changes only as the write of its own album decides. |
| `PassProgress.ArtHoldsChangeExactly` | src/harmonist/auto_apply.py:129-151 | An artwork hold too, and it stands for the plan's version when the write began. |
| `PassProgress.MarksChangeExactly` | src/harmonist/auto_apply.py:405-546 | A selection marks all it claimed as queued and the album being written as applying, and unmarks each when it is done. |

## Left out

- ArtworkSettles.PlanSettles: holds for images within the players' size limit and without choices on rows. Squishing a larger image to a smaller copy is outside the model.
- ArtworkSettles.PlanSettlesExactly: stand-ins and squished copies are outside it, since the model of applying a plan writes the planned bytes as they are.
- TrackColumns.NoPendingChangeIsInvisible: leaves out the track number and, on several discs, the disc number and the medium's tags. `TrackMarks` and `DiscHeadings` say of each exactly when a change is shown; one of the disc number from none to the first is shown nowhere, nor is one of the medium's that no heading, column or band states.
- TrackTable.EveryPendingChangeIsShown: files nobody could read and videos are not compared, as the program has it.
- DiscHeadings.BuildHeadings: the headings are found by disc, as the page finds them; their order and wording are not modelled, nor the discs only the files claim.
- DiscHeadings.HeadingsMarkTheChangesExactly: every medium has a position of its own, counted from 1, as MusicBrainz numbers them; an answer that leaves positions out or repeats them is not modelled.
- TrackTable.FormatsAlign: the format's own text, and the averaged quality shown in the band, are opaque.
- NfoImages.RefreshEqualsRecompute: directory links are fixed. A change of a link that a search passes and does not record is outside it; `RefreshGoesStaleExactly` says that such a change is what makes a refresh go stale.
- NfoImages.LocalImage: which directory a reference leads to and which suffixes are pictures' are parameters.
- LibraryIndex.IncrementalEqualsRebuild: while no two directories share a URL or an item id. With a shared key the index is only sound, as `EveryRunIsValid` states, and `EqualsEveryRebuildExactly` shows it cannot equal every rebuild.
- Archive.ArchiveAndRemove: the music root is not one of the directories, as its callers promise. Nothing else changes the disk meanwhile.
- Archive.Write: an operation that the system fails does nothing, or leaves a short or damaged entry; which ones it fails is given, and the laws of what does get done are for a disk where none fails.
- ArtworkStore.EvictionEndsWithinCap: when deletions succeed. A file that cannot be deleted is skipped by the program and by the model.
- ImageCache.RunAll: temporary files left by a write that failed part-way are not modelled.
- Backfill.BackfillIsInjective: purchases without an id are not candidates; the program raises on one.
- Backfill.PairingByTitle: titles are compared as reduced to letters and digits. The documentation has an untitled album match no purchase; the model follows the code, and `UntitledAlbumIsLinkedExactly` says when it does match one.
- Checkpoint.NoRunBuries: the purchases paged, and what the downloader's library saves by itself, are modelled from what the hook relies on: newest to oldest down to the checkpoint, and the first one paged.
- AutoApply.EveryRunIsSafe: what a tick has to do is read in one step. The process ending part-way loses the locks and the queues with it, so it is not a step.
- AutoApply.HeldIsNotRetried: the reasons for a hold, and whether a change is in the range to be applied, are choices of the steps.
- Images.RangedMeasurementIsRight: a header that lies past the first 64 KB is measured as unknown; `ArtworkDownloads.RangedCheckMissesExactly` says what that costs, and `ALateHeaderIsMissed` shows it.
- LinkSurvey.SurveyAlbumLinks: reading a sidecar, the slug of a URL and which URLs are Bandcamp's are given; the ids stored are numbers.
- Wording, labels, summaries, URLs, emphasis within values and pagination: they would only add easy members.
- HTTP, MusicBrainz and the Cover Art Archive, SQLite, logging, audit lines and progress bars: input and output.
- The tagger, the scanner, sidecar files and the reading of artist.nfo: applying a plan is a state update, and profiles, sidecars and tags are given.
- Regular expressions, hashing, XML and the marking of small differences inside a value: digests are opaque, and equal only when the bytes are.
- The active conditions of the NFO diagnostics, the freshness of cached answers and configuration: settled by one branch each.
