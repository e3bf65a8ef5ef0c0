# Omni Money: a verified model of its hard core

Omni Money is a household ledger. This project models, in Dafny, the parts of it
whose correctness cannot be seen from one function: the CSV v3 archive and the
layers below it, running balances, the tag summary, the card-to-bank link policy,
the durable save queue and its worker, the desktop vault's lease and drain protocol,
the control database with its login throttle, and the image container validators.
`dafny verify dfyconfig.toml` checks all of it.

How the model is built:

- Code that changes state step by step is a class or a method with loops, proved
  against a function or a property of its inputs. Protocols between goroutines,
  processes or clients are state machines over atomic steps, and the theorems are about every run.
- A SQL write transaction is one step that commits or leaves the tables unchanged.
  Tables are maps, sets or sequences; schema constraints that can abort a
  transaction are part of its outcome.
- Hashes are arbitrary functions; where a theorem needs it, a collision-free one is
  assumed in its `requires`. Unicode classes, date text, image preparation and the
  ledger text rules are parameters.
- Integers that the program checks for 64-bit overflow are checked in the model
  with the program's own guards.

The modules, by area:

| area | modules |
|---|---|
| archive | `ArchiveRows`, `ArchiveColumns`, `ArchiveExport`, `ArchiveBudget`, `ImageQuota`, `ArchiveParse`, `ArchiveAccept`, `ArchiveReader`, `ArchiveTags`, `ArchiveImport`, `ArchiveRoundTrip`, `ArchiveSucceeds`, `ArchiveAppend`, `AppendLimits`, `ArchiveFits`, `ArchiveFile`, `ArchiveEndToEnd`, `ArchiveSample`, `ArchiveLong`, `BalanceRenaming` |
| CSV and text | `CsvGuard`, `CsvText`, `TextCells`, `Base64`, `IntText`, `ParsedBudget` |
| digests | `FieldStreams`, `LedgerDigest` |
| ledger | `Balances`, `TagForest`, `TagScan`, `TagRollup`, `TagSummaries`, `CardLinks`, `Checked`, `Sums` |
| protocols | `SaveQueue`, `LedgerWorker`, `SaveDelivery`, `VaultCoordinator` |
| control | `ControlPlane`, `ControlStore`, `LoginThrottle` |
| images | `JpegContainer`, `ChunkedImages`, `GifContainer`, `Bytes` |

Where a promised property does not hold as stated, the project proves when it does
and shows why not otherwise:

- Every successful export is admissible by its importer, but for two cases: a record
  above 32 MiB (`ArchiveLong.LongBookIsRefused`) and links an import does not accept
  (`ArchiveSample.SharedCardIsRefused`).
  `ArchiveEndToEnd.ExportedFileImportsExactly` gives the exact condition.
- A v3 text cell is recovered exactly under the condition of `TextCells.RecoversExactly`;
  the reserved marker is lost (`TextCells.MarkerIsLost`).
- The ledger digest loses the fraction of a float (`LedgerDigest.FractionsAreLost`) and
  nothing else (`LedgerDigest.LedgerStreamDetermines`).
- An accepted wake is served unless a reset drops it: `LedgerWorker.ServedUnlessDropped` is
  the exact condition, `LedgerWorker.UnjoinedResetDropsWake` a run in which it fails.
- Purging login rows is invisible while time does not run backwards
  (`LoginThrottle.PurgingIsInvisible`); otherwise `LoginThrottle.ForgettingIsInvisibleExactly`
  says when, and `LoginThrottle.PurgeThenClockBack` is a case that shows.
- An image stored without a time stamp gets the database's on import
  (`ArchiveRoundTrip.ImagesRenamed`).

## Model

| member | source | states |
|---|---|---|
| `ArchiveEndToEnd.ExportedFileRestores` | backend/core/service_csv_full.go:882-1278 | Whenever the replace import of the file exported from a ledger succeeds, the new ledger is the old one under an injective renaming of transaction and tag ids (texts, dates, effective amounts, tag forest, both kinds of links, settings, images per transaction), and balances that were prefix sums come back unchanged; goes through bytes, guard, CSV fields, cells, rows and manifest |
| `ArchiveEndToEnd.ExportedFileImportsExactly` | backend/core/service_csv_full.go:80-83 | Every export fits its importer: the file of a stored, balanced ledger that the exporter agrees to write is imported if and only if no record is above the record limit, every link joins a card and a bank, and no card has two banks |
| `ArchiveEndToEnd.FilePassesExactly` | backend/core/service_csv_full.go:64-76 | The importer's guard lets an exported file through exactly when no data record is longer than 32 MiB; field sizes, field counts and quoted CRs never stop it |
| `ArchiveEndToEnd.CellsFit` | backend/core/service_csv_full.go:72-76 | No cell of an exported row is above the guard's field limit |
| `ArchiveEndToEnd.LongRecord` | backend/core/service_csv_full.go:64-70 | A transaction whose account and memo are quotes up to the text limit makes a record above the record limit |
| `ArchiveLong.LongBookIsRefused` | backend/core/service_csv_full.go:64-70 | A stored ledger with one such legacy transaction is exported, within every limit the exporter knows, and its file is refused |
| `ArchiveSample.SampleIsRestored` | backend/core/service_csv_full.go:882-1278 | A ledger with a linked card and bank transaction, a tag, an image and settings meets everything a restore asks for, under concrete rules, and its import succeeds |
| `ArchiveSample.SharedCardIsRefused` | backend/core/service_csv_full.go:3213-3215 | The same ledger with the card payment linked to a second bank transaction is exported, and its file is refused |
| `ArchiveFits.ExportRestoresExactly` | backend/core/service_csv_full.go:2953-3236 | What the exporter writes of a stored, balanced ledger is parsed, and restored if and only if every link joins a card and a bank and no card has two banks |
| `ArchiveFits.ExportIsParsed` | backend/core/service_csv_full.go:1595-2214 | Whatever the exporter writes, the parser accepts: each row by itself, no two that clash, every reference met |
| `ArchiveFits.ExportIsAdmitted` | backend/core/service_csv_full.go:717-756 | What the exporter's restore bounds let through, the importer's image quotas admit |
| `ArchiveSucceeds.ReplaceSucceedsExactly` | backend/core/service_csv_full.go:2953-3236 | A parsed export of a balanced ledger is restored if and only if its links are card/bank pairs and no card has two banks; tags, balances and ids are always in order |
| `ArchiveSucceeds.CleanExactly` | backend/core/service_csv_full.go:3213-3215 | A ledger has one bank per card before renaming exactly when it has after |
| `ArchiveSucceeds.AddsExactly` | backend/core/service_csv_full.go:3174-3203 | Links between known transactions are inserted exactly when each joins a card and a bank |
| `ArchiveAppend.AppendBringsAll` | backend/core/service_csv_full.go:2953-3236 | Whenever the append of an exported archive to a ledger succeeds, all of the exported ledger is there beside what was there, under one-to-one renamings of transactions and tags, and nothing else is added; a tag is one that was there exactly if one had its name in its place and it repeats no root of the archive |
| `ArchiveAppend.AppendKeeps` | backend/core/service_csv_full.go:2978-2988 | An append leaves every transaction, tag, link, setting and image that was there as it was, but for balances |
| `ArchiveAppend.AppendKeepsBalances` | backend/core/service_csv_full.go:3216-3220 | A balanced ledger is balanced after an append |
| `AppendLimits.AppendRefusesExactly` | backend/core/service_csv_full.go:2216-2256 | An append of a parsed archive goes through exactly when its settings can be read and overwrite none, each link joins a card and a bank, no card gets a new second bank, every balance fits 64 bits, and the images stored and new together are within the limits: sizes per image, counts and sizes per transaction, 128 MiB in each account that gets one, and over all 256 MiB and 100,000 archived ones; tags never stop it |
| `AppendLimits.AppendEndsWithin` | backend/core/service_csv_full.go:2427-2522 | After an append the images of the new ledger are within those limits, counted over all of them |
| `AppendLimits.AdmitsExactly` | backend/core/service_csv_full.go:2427-2522 | The importer's running tallies over stored and new images admit exactly when the two together are within the limits |
| `ArchiveAppend.ReplaceIsAppendToNothing` | backend/core/service_csv_full.go:2989-3016 | A replace refuses and restores exactly what an append to empty tables would |
| `ArchiveAccept.ParsesExactly` | backend/core/service_csv_full.go:1595-2214 | The parser accepts exactly the row lists whose rows pass alone, do not clash and refer to rows that are there, in any order, and collects them kind by kind |
| `ArchiveTags.TagsAreInserted` | backend/core/service_csv_full.go:3057-3105 | A forest whose tags stand below their parents is inserted whole, whatever tags are there: no parent is ever missing |
| `ImageQuota.RestorableIsAdmitted` | backend/core/service_csv_full.go:2427-2522 | Images within the exporter's bounds are within the importer's quotas per transaction, account and database |
| `ImageQuota.CheckLegacy` | backend/core/service_csv_full.go:1024-1041 | One pass with a count that starts again at each transaction refuses exactly when a transaction or the database has too many archived images |
| `ImageQuota.CheckAccounts` | backend/core/service_csv_full.go:740-756 | Refuses exactly when the images of some account exceed its limit |
| `ImageQuota.CheckTotal` | backend/core/service_csv_full.go:1042-1063 | Refuses exactly when all images together exceed the database limit |
| `ArchiveBudget.ChargesWeigh` | backend/core/service_csv_full.go:758-778 | The importer's charges for some rows add up to the weight of the rows |
| `ArchiveExport.ArchiveWeighs` | backend/core/service_csv_full.go:783-880 | The rows of an archive weigh in the importer's budget exactly what the preflight finds in the ledger |
| `ArchiveEndToEnd.FileReadsBack` | backend/core/service_csv_full.go:1595-1741 | Reading the bytes written for exported rows, with header and manifest, gives exactly those rows, and is refused exactly when the file, a record, the row count or the text is above the importer's limits |
| `ArchiveEndToEnd.TamperingIsNoticed` | backend/core/service_csv_full.go:1696-1741 | With a collision-free hash a file that is read and ends in the manifest of some rows holds exactly those rows: nothing dropped, added, reordered or altered |
| `ArchiveEndToEnd.DataRowsBack` | backend/core/service_csv_full.go:1696-1731 | The data rows found between header and manifest are the rows written |
| `ArchiveExport.Export` | backend/core/service_csv_full.go:882-1278 | Writes every entry of the ledger once, or refuses exactly when a record passes neither the current nor the legacy rules, an image or the images of a transaction, an account or the database exceed the restore bounds, the text exceeds the importer's memory budget, or the rows leave no room for the manifest |
| `ArchiveExport.ExportTxs` | backend/core/service_csv_full.go:914-966 | Every transaction once in (date, id) order, as a normal row where the current rules allow and it has no archive amount, as a legacy row otherwise |
| `ArchiveExport.ExportImages` | backend/core/service_csv_full.go:968-1086 | An image goes as a normal one exactly if it is not archived, its transaction is within quota and preparing it changes nothing; refused exactly when an image is over its size or text rules or the images are over a restore bound |
| `ArchiveExport.ArchivedExactly` | backend/core/service_csv_full.go:968-1022 | An image goes as an archived one exactly if it is one, preparing it would change it, or its transaction has more than ten images or 20 MiB |
| `ArchiveExport.ExportTags` | backend/core/service_csv_full.go:1088-1150 | Every tag once and nothing else, refused exactly when one passes no rules or is not directly below its parent |
| `ArchiveExport.ExportPairs` | backend/core/service_csv_full.go:1152-1218 | One row per tag link or transaction link, no more and no fewer |
| `ArchiveExport.ExportSettings` | backend/core/service_csv_full.go:1220-1262 | The two ledger settings, as normal or legacy rows |
| `ArchiveRoundTrip.RestoresTheLedger` | backend/core/service_csv_full.go:2953-3236 | Export, parse and replace give the same ledger up to renaming, for every export order of the queries and every choice of legacy record kinds |
| `ArchiveRoundTrip.RestoresBalances` | backend/core/service_csv_full.go:3216-3220 | Recomputed balances equal the exported ones when those were prefix sums in (date, id) order |
| `ArchiveRoundTrip.ParserReadsExport` | backend/core/service_csv_full.go:1738-2151 | What the parser collects from an exported archive is the exported content, section by section |
| `ArchiveRoundTrip.LinksSurvive` | backend/core/service_csv_full.go:3174-3212 | The restored links are exactly the renamed ones and the final prune removes none |
| `ArchiveRoundTrip.TxsRenamed` | backend/core/service_csv_full.go:3017-3043 | New transaction ids are an injective renaming and keep every field of the transaction |
| `ArchiveRoundTrip.TagsRenamed` | backend/core/service_csv_full.go:3057-3105 | The restored tag table is the exported forest under the new ids |
| `ArchiveRoundTrip.ImagesRenamed` | backend/core/service_csv_full.go:3111-3158 | Inserting normal before archived images keeps the multiset of images; an empty time stamp takes the database default |
| `ArchiveRoundTrip.LinksRenamed` | backend/core/service_csv_full.go:3174-3203 | Ordering the ends before and after renaming gives the renamed link set |
| `ArchiveRoundTrip.SettingsStay` | backend/core/service_csv_full.go:1220-1250 | Exported settings are read back as the same two keys and values |
| `BalanceRenaming.PrefixSumRenamed` | backend/core/service_csv_full.go:3216-3220 | A renaming that keeps the (date, id) order changes no prefix sum |
| `BalanceRenaming.BalancesRestored` | backend/core/service_csv_full.go:3216-3220 | After such a renaming a replace computes every row's former balance |
| `ArchiveTags.TagsAreRestored` | backend/core/service_csv_full.go:3057-3105 | Level-wise insertion gives every archived tag a tag of its own with its name, level and renamed parent; no two rows share one and there are no others |
| `ArchiveTags.TagsAreMerged` | backend/core/service_csv_full.go:3057-3105 | Beside tags that are there, each row takes the one of its name and place or gets one of its own; no two rows share a tag and no other tag is added |
| `ArchiveTags.MergedExactly` | backend/core/service_csv_full.go:3074-3091 | A row takes a tag that was there if and only if it repeats no root and one of its name and place was there |
| `ArchiveTags.MergedOnLevel` | backend/core/service_csv_full.go:3074-3091 | A row is only ever merged with a tag of its own level |
| `ArchiveTags.NothingToMerge` | backend/core/service_csv_full.go:3074-3091 | No tag inserted for another row of the archive is ever one to merge with, because repeated roots are marked and siblings differ in name |
| `ArchiveTags.Find` | backend/core/service_csv_full.go:3082-3088 | Finds an inserted tag of that name and place exactly when there is one |
| `ArchiveReader.RestoreTags` | backend/core/service_csv_full.go:3057-3105 | The three passes over the rows compute the level-wise insertion beside the tags that are there |
| `ArchiveReader.RestoreLinks` | backend/core/service_csv_full.go:3174-3203 | The loop over archived links inserts the renamed, checked links or refuses |
| `ArchiveReader.ParseRows` | backend/core/service_csv_full.go:1738-2151 | The parser loop with its seen-sets computes the row-by-row parse, refusals included |
| `ArchiveParse.ParsedIsConsistent` | backend/core/service_csv_full.go:1742-2118 | A parsed archive has distinct ids per kind, distinct sibling names, ordered distinct links and levels 1 to 3 |
| `ArchiveParse.ParsedIsRows` | backend/core/service_csv_full.go:1738-2151 | A parsed archive holds the rows of each kind in their order |
| `ArchiveImport.PruneRemovesNothing` | backend/core/service.go:3491-3526 | When every link joins a card and a bank, pruning removes nothing |
| `ArchiveImport.AddLinksAdds` | backend/core/service_csv_full.go:3174-3203 | Successful link insertion adds exactly the renamed links, each a card/bank pair |
| `ArchiveImport.TxIdsAt` | backend/core/service_csv_full.go:3017-3043 | The id map covers the archived ids and follows the row order |
| `ArchiveRows.RowBack` | backend/core/service_csv_full.go:912-966 | Reading the 23 cells of a row gives the row back, for every kind of row whose texts are plain, numbers fit and date reads back |
| `ArchiveRows.CellsHaveNoCR` | backend/core/service_csv_full.go:649-654 | No cell of an archive row holds a CR |
| `ArchiveRows.IntBack` | backend/core/service_csv_full.go:1561-1582 | An integer cell reads back as the 64-bit number that was written |
| `ArchiveRows.TextBack` | backend/core/service_csv_full.go:1433-1452 | A text cell within the field limit reads back as the text |
| `ArchiveRows.KindBack` | backend/core/service_csv_full.go:116-128 | Every record type name reads back as its kind |
| `ArchiveColumns.CellsAreNamed` | backend/core/service_csv_full.go:261-265 | Each of the 23 cells of a row is the value its record type has under that column of the header, and empty under a foreign one |
| `ArchiveColumns.NothingHidden` | backend/core/service_csv_full.go:584-637 | A row that is read hides no value under a column of another record type |
| `ArchiveColumns.AllowedExactly` | backend/core/service_csv_full.go:584-617 | The columns allowed to a record type are those named for it |
| `ArchiveColumns.KindsAreSpelled` | backend/core/service_csv_full.go:116-119 | How each record type is spelled |
| `ArchiveColumns.NamesAreSpelled` | backend/core/service_csv_full.go:1220-1250 | How setting keys, transaction types and the manifest row are spelled |
| `ArchiveColumns.DelimitersAreSpelled` | backend/core/service_csv_full.go:328-424 | The bytes the reader and the writer take for comma, quote, CR and LF |
| `ArchiveColumns.ReadIsInRange` | backend/core/service_csv_full.go:1561-1582 | A row that is read has positive ids, amounts within 64 bits and a level from 1 to 3 |
| `ArchiveFile.RowsReadBack` | backend/core/service_csv_full.go:1653-1741 | The cells of exported rows read back as the rows |
| `ArchiveFile.TableIsRead` | backend/core/service_csv_full.go:885-911 | A file written from CR-free cells decodes to exactly those cells |
| `ArchiveFile.ManifestDetectsChange` | backend/core/service_csv_full.go:492-515 | With a collision-free hash a manifest describes a sequence of rows exactly when it is the one it was made for: dropped, reordered or altered rows are noticed |
| `ArchiveFile.CheckManifest` | backend/core/service_csv_full.go:1696-1741 | The running counts and digest accept exactly the rows the manifest describes |
| `ArchiveFile.CountIs` | backend/core/service_csv_full.go:492-503 | A count in a manifest is the number of rows of that record type |
| `CsvGuard.AcceptedExactlyWithinLimits` | backend/core/service_csv_full.go:280-424 | An input the RFC 4180 reference decoder accepts passes the guard exactly when no decoded field exceeds the field limit, no record has more than 256 fields or 32 MiB and, in v3 mode, no quoted field holds a CR |
| `CsvGuard.AcceptedInAnyChunks` | backend/core/service_csv_full.go:295-326 | The same for every way of cutting the input into reads |
| `CsvGuard.GuardRefinesDecoder` | backend/core/service_csv_full.go:328-424 | After every prefix the guard goes on exactly while all limits hold and its counters are the decoder's sizes, up to one pending CR |
| `CsvGuard.GuardTracks` | backend/core/service_csv_full.go:328-424 | One byte: the guard refuses exactly when the decoder passes a limit |
| `CsvGuard.FitsThroughout` | backend/core/service_csv_full.go:328-424 | A limit once passed stays passed, so nothing refused could have ended within the limits |
| `CsvGuard.ChunksDoNotMatter` | backend/core/service_csv_full.go:295-326 | Chunked consumption equals consumption of the joined input |
| `CsvGuard.FieldLimitReader.ConsumeByte` | backend/core/service_csv_full.go:328-424 | One byte updates the eight guard fields as specified or refuses |
| `CsvGuard.FieldLimitReader.Read` | backend/core/service_csv_full.go:295-326 | A read consumes the chunk byte by byte, stops at the first refusal and settles a pending CR at end of input |
| `CsvText.WrittenIsRead` | backend/core/service_csv_full.go:885-911 | Every file the CSV writer emits from CR-free fields decodes to those fields, row by row |
| `CsvText.WrittenPassesGuard` | backend/core/service_csv_full.go:280-424 | Such a file passes the guard exactly when its rows are within the limits |
| `TextCells.DecodesExactlyTheImage` | backend/core/service.go:37-70 | The v2 decoder inverts the encoder and accepts a cell as a text exactly when the encoder emits it for that text |
| `TextCells.AcceptsExactlyTheImage` | backend/core/service.go:44-56 | A cell is accepted exactly when it is in the encoder's image |
| `TextCells.EncodedIsSafe` | backend/core/service.go:37-42 | An encoded cell, in either version, never starts with a blank or control byte, +, -, = or @, nor with a Unicode blank or control character |
| `TextCells.EscapedExactly` | backend/core/service.go:37-70 | A text gets one apostrophe in front exactly if it starts with one of those or an apostrophe, and is written as it stands otherwise |
| `TextCells.EnvelopedExactly` | backend/core/service_csv_full.go:647-654 | A text is written in Base64 behind the marker exactly if it holds a CR |
| `TextCells.MarkerIs` | backend/core/service_csv_full.go:641-647 | How the reserved marker is spelled |
| `TextCells.RecoversExactly` | backend/core/service_csv_full.go:647-673 | The v3 decoder recovers a text exactly when it holds a CR and is valid UTF-8, or holds no CR and does not start with the reserved marker |
| `TextCells.MarkerIsLost` | backend/core/service_csv_full.go:647-673 | The reserved marker itself is a text the format cannot carry |
| `TextCells.NeverEmitsCR` | backend/core/service_csv_full.go:649-654 | The v3 encoder never emits a CR |
| `TextCells.FitsTheGuard` | backend/core/service_csv_full.go:72-76 | A text within the field limit gives a cell within the guard's field limit |
| `Base64.RoundTrip` | backend/core/service_csv_full.go:649-673 | Strict unpadded decoding undoes encoding, and encodings hold no line break |
| `Base64.PaddedRoundTrip` | backend/core/service_csv_full.go:1062-1072 | The same with padding |
| `Base64.PaddedExactly` | backend/core/service_csv_full.go:1855-1890 | Strict padded decoding accepts exactly the encodings: no line break, stray bit or missing padding gets through |
| `Base64.DecodesExactly` | backend/core/service_csv_full.go:649-673 | Without line breaks the same holds without padding |
| `Base64.AlphabetIs` | backend/core/service_csv_full.go:649-673 | The alphabet is A to Z, a to z, 0 to 9, + and / |
| `Base64.WrittenInGroups` | backend/core/service_csv_full.go:649-673 | Every three bytes become four letters of six bits each, most significant first |
| `IntText.ParseFormat` | backend/core/service_csv_full.go:1561-1582 | Decimal text of an integer parses back to it |
| `IntText.ParsesExactly` | backend/core/service_csv_full.go:1561-1582 | A number is read exactly from one or more digits after an optional sign |
| `IntText.TrimmedIs` | backend/core/service_csv_full.go:1561-1582 | Trimming takes the blanks at both ends and nothing else |
| `IntText.FormatIsInjective` | backend/core/service_csv_preview.go:174-191 | Different integers have different texts |
| `ParsedBudget.AddParsedBudget` | backend/core/service_csv_full.go:758-778 | A charge succeeds exactly when what is used plus the charge is at most 64 MiB, and then adds exactly the charge |
| `ParsedBudget.Preflight` | backend/core/service_csv_full.go:783-880 | The export preflight succeeds exactly when all text plus 1024 per image is at most 64 MiB |
| `ParsedBudget.ChargeRows` | backend/core/service_csv_full.go:1467-1473 | The importer's split charges succeed exactly under the same condition |
| `ParsedBudget.SameRowsSameWeight` | backend/core/service_csv_full.go:783-880 | The order of the rows does not matter |
| `ParsedBudget.PreflightMeetsImporter` | backend/core/service_csv_full.go:783-880 | Preflight and importer agree for every order of the archive rows |
| `ParsedBudget.LimitsMeet` | backend/core/service_csv_full.go:1679-1681 | Both limits meet exactly |
| `FieldStreams.StreamDetermines` | backend/core/service_csv_preview.go:103-111 | A length-prefixed stream determines its sequence of fields |
| `FieldStreams.RowStreamDetermines` | backend/core/service_csv_full.go:481-490 | A stream of fixed-width rows determines the rows in order |
| `FieldStreams.Digest.WriteFields` | backend/core/service_csv_preview.go:103-111 | Writing fields appends exactly their length-prefixed stream |
| `LedgerDigest.LedgerStreamDetermines` | backend/core/service_csv_preview.go:115-168 | Two ledgers feed the digest the same bytes exactly when they have the same tables, rows and typed cells, up to fractions of floats |
| `LedgerDigest.FieldDetermines` | backend/core/service_csv_preview.go:174-191 | A digest field determines the typed cell exactly up to the integer part of a float |
| `LedgerDigest.TypesAreSpelled` | backend/core/service_csv_preview.go:174-191 | The type name in front of a digest field is the one Go prints |
| `LedgerDigest.TruncatedIs` | backend/core/service_csv_preview.go:180-181 | A float enters the digest as the integer next to it in the direction of zero |
| `LedgerDigest.FractionsAreLost` | backend/core/service_csv_preview.go:180-181 | Two different floats share a digest field |
| `LedgerDigest.HashLedger` | backend/core/service_csv_preview.go:115-168 | The digest loops write exactly the ledger stream |
| `LedgerDigest.PinnedApplySeesPreview` | backend/core/service_csv_full.go:2633-2647 | With a collision-free hash a pinned apply goes through exactly on the source bytes and ledger content the preview saw |
| `LedgerDigest.Classify` | backend/core/service_csv_preview.go:230-243 | Every previewed row is counted once: as a duplicate if it is stored, as a conflict if a stored row differs from it in the memo alone, as new otherwise |
| `Checked.CheckedAdd` | backend/validation/amount.go:21-26 | The guards refuse exactly the sums outside 64 bits |
| `Checked.CheckedSub` | backend/validation/amount.go:28-33 | The guards refuse exactly the differences outside 64 bits |
| `Balances.EveryStateBalanced` | backend/core/service.go:304-346 | Over every run of adds, updates, deletes and imports each stored balance is the exact signed prefix sum of its account in (date, id) order |
| `Balances.WriteKeepsBalanced` | backend/core/service.go:392-492 | Each write keeps that, moves between accounts included, and changes nothing when refused |
| `Balances.WriteLeaves` | backend/core/service.go:304-346 | Which rows each kind of write leaves, with every field but the balance |
| `Balances.CommitsExactly` | backend/core/service.go:543-572 | A write to a balanced ledger commits exactly when its row is there to change and every running sum of the rows it leaves fits 64 bits |
| `Balances.SettlingRestoresBalance` | backend/core/service.go:455-463 | Recomputing the accounts an edit touched restores the invariant for all rows |
| `Balances.SettleOneMore` | backend/core/service.go:459-463 | Recomputing accounts one after the other is recomputing them at once and fails at the first that does not fit |
| `Balances.RunningBalances` | backend/core/service.go:1529-1570 | Adding up fails exactly when some prefix sum leaves 64 bits; otherwise it yields the prefix sums |
| `Balances.PrefixSumIs` | backend/core/service.go:1529-1570 | A prefix sum is what the account took in less what it spent up to that row |
| `Balances.Ledger.Recalculate` | backend/core/service.go:1529-1588 | One account is recomputed, or nothing changes on overflow |
| `Balances.Ledger.Apply` | backend/core/service.go:543-572 | Commits exactly when its row is there to change and every running sum of the rows it leaves fits 64 bits, else changes nothing; after an add or update that row is the given one and after a delete it is gone, after an import the imported rows are there, beside the others unless replacing; every other row keeps all but its balance; balances are prefix sums |
| `Balances.Ledger.BalanceHistory` | backend/core/service.go:1675-1738 | For each account and listed day the history reports the sum of all its transactions up to that day |
| `Balances.Ledger.Fill` | backend/core/service.go:1715-1730 | Forward filling carries the latest earlier balance |
| `Balances.LatestIsSum` | backend/core/service.go:1675-1738 | In a balanced table the latest row's balance up to a day is the sum up to that day |
| `TagForest.BuildForest` | backend/core/service.go:2865-2967 | Accepts exactly the well-formed forests, reports the first flaw exactly, and never reports a duplicate path |
| `TagForest.Search` | backend/core/service.go:2919-2940 | The breadth-first search terminates, meets no tag twice and counts all tags exactly when all have a path from a root |
| `TagForest.WellFormedLocally` | backend/core/service.go:2865-2967 | The per-tag checks amount to distinct ids, existing parents and level equal to depth at most 3 |
| `TagForest.NoSecondPath` | backend/core/service.go:2924-2928 | A waiting tag is never appended again |
| `TagForest.SearchVerdict` | backend/core/service.go:2933-2940 | A finished search has found exactly the tags with a path from a root |
| `TagRollup.Rollup.RollupForest` | backend/core/service.go:2969-3028 | Fails exactly when the grand total exceeds the 64-bit maximum; otherwise every tag has its subtree's amount and count and children ranked by amount |
| `TagRollup.Rollup.RollupNode` | backend/core/service.go:2971-3004 | One subtree: fails exactly past the maximum, completes exactly its own tags |
| `TagRollup.RolledStep` | backend/core/service.go:2988-3001 | A subtree sum is the tag's own value plus its children's subtree sums |
| `TagRollup.RolledRoots` | backend/core/service.go:3017-3026 | The roots' subtree sums add up to everything |
| `TagRollup.RankingSums` | backend/core/service.go:2985-2999 | Dropping empty children and sorting changes neither amounts nor counts, whatever the sort order |
| `TagRollup.AddUp` | backend/core/service.go:2990-2999 | Checked addition of non-negative amounts fails exactly when the sum exceeds the maximum |
| `TagRollup.SortByAmount` | backend/core/service.go:2984-2986 | A permutation in descending order of amount |
| `TagScan.Collect` | backend/core/service.go:2800-2845 | One record per tag with exact sum and count, as many as the rows name different tags; with positive amounts it fails exactly when some tag's own amount exceeds 64 bits or there are more tags than a positive limit |
| `TagSummaries.Builder.Materialize` | backend/core/service.go:3030-3101 | The budgeted answer is the plain truncation of the full tree, has min(visible, budget) nodes, is a prefix of the preorder, and is reported truncated exactly when visible exceeds budget |
| `TagSummaries.Builder.MaterializeIndexes` | backend/core/service.go:3063-3093 | Building under a shared remaining budget completes the truncation of the full subtree list |
| `TagSummaries.Builder.CountVisible` | backend/core/service.go:3035-3049 | Counts the nodes of the full tree |
| `TagSummaries.TruncateIsPrefix` | backend/core/service.go:3287-3301 | Truncation keeps a prefix of the preorder listing, each node at its depth with its amounts, and spends exactly what it keeps |
| `TagSummaries.ListingDetermines` | backend/core/service.go:3287-3301 | The preorder listing with depths determines the forest, so the truncation is the only forest with that prefix |
| `TagSummaries.Summarize` | backend/core/service.go:2846-2862 | From scanned tags to the answer: refused exactly for a malformed forest or too large a total; otherwise the truncation to the budget of the tree that lists, at every level and largest first, exactly the tags with a positive subtree sum, each with its subtree's amount, count and share of the total |
| `TagSummaries.FullReports` | backend/core/service.go:3063-3093 | The untruncated tree reports every tag with its subtree sums, children ranked below their parents |
| `CardLinks.RunKeepsPolicy` | backend/core/card_reconciliation.go:83-99 | Over every run a card with several banks has only banks it started with; a clean ledger stays clean |
| `CardLinks.CommitKeepsPolicy` | backend/core/card_reconciliation.go:83-99 | Every committed mutation leaves a card with several banks only banks it had before |
| `CardLinks.AddLinkAllowed` | backend/core/card_reconciliation.go:101-155 | Adding a link keeps the policy |
| `CardLinks.UpdateAllowed` | backend/core/service.go:392-492 | An update keeps the policy, also without the check that is skipped when the account stays |
| `CardLinks.ChangeLinksAllowed` | backend/core/service.go:3577-3606 | Removing then adding links of one transaction keeps the policy |
| `CardLinks.PruneAllowed` | backend/core/service.go:3491-3526 | Pruning adds no bank |
| `CardLinks.AppendAllowed` | backend/core/service_csv_full.go:2978-2988 | A committed append keeps the policy |
| `CardLinks.ReplaceIsClean` | backend/core/service_csv_full.go:3213-3215 | Nothing is grandfathered through a replace |
| `CardLinks.PairIsSymmetric` | backend/core/card_reconciliation.go:19-33 | Classification does not depend on the order of the ends, and a card/bank pair is never pruned |
| `CardLinks.TotalsCountAssignments` | backend/core/card_reconciliation.go:173-260 | Summed over any banks, each card counts once per bank it is linked to |
| `CardLinks.CleanTotalsCountOnce` | backend/core/card_reconciliation.go:173-260 | In a clean ledger all reconciliation totals together count every linked card exactly once |
| `CardLinks.CardsForIsAssignment` | backend/core/card_reconciliation.go:173-260 | A reconciliation lists exactly the cards assigned to the bank |
| `CardLinks.CardTotalIs` | backend/core/card_reconciliation.go:173-260 | A card total is what the listed cards spent less what they took in |
| `CardLinks.TrimIs` | backend/core/card_reconciliation.go:19-33 | Account names are compared without leading and trailing blanks |
| `CardLinks.SpacesAre` | backend/core/service.go:3609-3624 | Blank are exactly the white-space code points of Unicode |
| `CardLinks.Tables.ReadAssignments` | backend/core/card_reconciliation.go:35-79 | The grouped links are exactly each card's banks |
| `CardLinks.Tables.ValidateChanges` | backend/core/card_reconciliation.go:83-99 | Refuses exactly when some card has several banks, one of them new |
| `CardLinks.Tables.AddTransactionLink` | backend/core/service.go:3417-3443 | Succeeds exactly if both ids are positive, different and stored, one on a card and the other on a bank account, and the link exists or no other bank transaction is linked to that card; then the links are the old ones and (smaller, larger), with all else unchanged; otherwise nothing changes |
| `CardLinks.AddLinkExactly` | backend/core/card_reconciliation.go:101-155 | The same of one insertion, in whatever transaction it happens |
| `CardLinks.RemoveLinksExactly` | backend/core/service.go:3577-3606 | Removal succeeds exactly for different positive ids, each linked to the transaction and not its own, and takes exactly those links |
| `CardLinks.AddLinksExactly` | backend/core/service.go:3577-3606 | A list of links is added exactly if each may be beside those before it, and the links are then the old ones and those |
| `CardLinks.SmallStepsExactly` | backend/core/service.go:3627-3645 | What taking back one link and storing a new transaction change |
| `CardLinks.UpdateExactly` | backend/core/service.go:392-492 | After an update that row is the given one, and the links are those that remain valid after its own were removed and added |
| `CardLinks.SaveSettingsExactly` | backend/core/service.go:716-761 | Saving settings keeps the transactions and drops exactly the links that join no card and bank any more |
| `CardLinks.DeleteExactly` | backend/core/service.go:543-572 | A delete takes the transaction and exactly the links that name it |
| `CardLinks.PruneExactly` | backend/core/service.go:3491-3526 | Pruning drops exactly the links of two stored transactions that are not one on a card and one on a bank account |
| `CardLinks.AppendExactly` | backend/core/service_csv_full.go:2978-3215 | An append goes through exactly if no setting has another value, each link joins a card and a bank and is new, and no card gets a new second bank; then rows, links and settings are those of both |
| `CardLinks.ReplaceExactly` | backend/core/service_csv_full.go:2989-3215 | A replace goes through exactly if each link joins a card and a bank, comes once and no card has two banks; then rows, links and settings are the archive's |
| `CardLinks.Tables.SaveLedgerSettings` | backend/core/service.go:716-761 | Succeeds exactly if no card ends with several banks, one of them new; then the settings are the new ones and the links those that still join a card and a bank; otherwise nothing changes |
| `CardLinks.Tables.Reconcile` | backend/core/card_reconciliation.go:173-260 | No report without the bank transaction; not applicable unless it is on a bank account that is no card; otherwise the listed cards, their exact total, the difference, whether they match, and a conflict exactly when some linked transaction's banks are not this bank alone |
| `CardLinks.ConflictsExactly` | backend/core/card_reconciliation.go:213-247 | A linked transaction that is no card, or a card shared with another bank, is exactly one whose banks are not this bank alone |
| `SaveQueue.ExactlyOnce` | backend/core/transaction_saves.go:245-311 | In every interleaving of accepts, retries, workers, dismissals and crashes a request has changed the ledger once if completed and never otherwise; the changes are the completed requests in receipt order with their first payload; retained payloads stay within 32 rows and 128 MiB |
| `SaveQueue.EveryStateSafe` | backend/core/transaction_saves.go:159-187 | Every reachable state keeps the queue invariant, for any number of workers |
| `SaveQueue.ResolutionIsFinal` | backend/core/transaction_saves.go:178-187 | Rows are never removed, renamed or un-resolved: completed and failed are terminal |
| `SaveQueue.FirstPayloadIsFinal` | backend/core/transaction_saves.go:60-127 | The payload first accepted for a request is never replaced |
| `SaveQueue.RetryIsIdempotent` | backend/core/transaction_saves.go:84-104 | A retry changes nothing and is acknowledged exactly when it repeats the first payload |
| `SaveQueue.Store.Accept` | backend/core/transaction_saves.go:60-127 | A malformed payload or one above 32 MiB is refused; a known id is acknowledged if the payload repeats and else a conflict; an unknown one is received exactly if fewer than 32 payloads and at most 128 MiB less its size are retained, and is then the last row, pending, with its payload; otherwise the queue is full and nothing changes; keeps the queue invariant, exactly-once accounting included |
| `SaveQueue.RetainedExactly` | backend/core/transaction_saves.go:99-112 | The counts and sizes asked for are those of all rows with a payload |
| `SaveQueue.Store.Process` | backend/core/transaction_saves.go:245-311 | Changes the ledger and marks the row completed, or marks it failed, in one transaction and only if still pending, with all other rows as before; keeps the queue invariant |
| `SaveQueue.Store.Dismiss` | backend/core/transaction_saves.go:223-243 | Succeeds exactly for a failed request; then its row has no payload and every other row is as before; otherwise nothing changes; keeps the queue invariant |
| `SaveQueue.Store.ProcessAll` | backend/core/transaction_saves.go:159-176 | Takes the pending requests oldest first until none is left or storage fails: each row before that point is completed or failed with its change made, the rest are as before, and the changes are appended in order; keeps the queue invariant throughout |
| `SaveQueue.CompleteOldest` | backend/core/transaction_saves.go:245-311 | Completing the oldest pending request appends its change to the completed ones |
| `LedgerWorker.EveryStateSafe` | backend/database/transaction_save_worker.go:24-104 | In every interleaving at most one runner exists, a pending wake has a runner and a work function, and no nil function is called |
| `LedgerWorker.AcceptedWakeIsServed` | backend/database/transaction_save_worker.go:37-64 | Before a runner exits, every accepted wake that no reset drops is followed by a fresh start of the work function it was accepted for |
| `LedgerWorker.ServedUnlessDropped` | backend/database/transaction_save_worker.go:37-104 | Between an accepted wake and a runner's exit the work starts if and only if some wake accepted meanwhile is not dropped; with no further wake, if and only if no reset comes before a start |
| `LedgerWorker.JoinedResetsDropNothing` | backend/database/transaction_save_worker.go:97-104 | Resets that come after the runner was joined drop no wake |
| `LedgerWorker.WakeStaysPending` | backend/database/transaction_save_worker.go:37-64 | Until then the wake stays pending with its runner and work function |
| `LedgerWorker.StopIsQuiescent` | backend/database/transaction_save_worker.go:85-95 | Once stop has returned no work runs or can start until a reset |
| `LedgerWorker.UnjoinedResetDropsWake` | backend/database/database.go:225-250 | Two overlapping initialisations: both stop the worker, the first resets it, a wake is accepted, and the second reset drops it |
| `LedgerWorker.LedgerWork.Register` | backend/database/transaction_save_worker.go:24-35 | Installs the work function unless closing; a step of the protocol that keeps its invariant |
| `LedgerWorker.LedgerWork.Wake` | backend/database/transaction_save_worker.go:37-64 | Ignored, coalesced or spawning a runner; a step of the protocol that keeps its invariant |
| `LedgerWorker.LedgerWork.Turn` | backend/database/transaction_save_worker.go:47-62 | One turn of the runner: take the pending wake, with a work function to call, or exit; a step of the protocol that keeps its invariant |
| `LedgerWorker.LedgerWork.BeginStop` | backend/database/transaction_save_worker.go:85-89 | Marks the worker as closing; a step of the protocol that keeps its invariant |
| `LedgerWorker.LedgerWork.ResetWork` | backend/database/transaction_save_worker.go:97-104 | Clears closing, the pending wake and the work function; a step of the protocol that keeps its invariant |
| `SaveDelivery.ReceivedSaveIsSettled` | backend/core/transaction_saves.go:118-177 | Queue and worker together: a save that was received and whose wake no reset drops is completed or has failed before the runner exits, unless the work function gave up on storage in between |
| `SaveDelivery.WakeDrains` | backend/core/transaction_saves.go:156-177 | Between an accepted wake that no reset drops and the runner's exit the queue is found empty at some moment, unless the work function gave up |
| `SaveDelivery.OneRequestAtATime` | backend/core/transaction_saves.go:156-177 | In every interleaving at most one request is being processed, and only by a running worker |
| `VaultCoordinator.BorrowsAreCountedAndStable` | backend/desktopaccount/coordinator.go:734-756 | In every run the active count is the number of unreturned borrows, each on the published, unclosed instance |
| `VaultCoordinator.ClosedOnceAndOnlyWhenIdle` | backend/desktopaccount/coordinator.go:666-732 | An instance is closed with no borrow out and never twice |
| `VaultCoordinator.LeaseNeverOutlivesDrain` | backend/desktopaccount/coordinator.go:585-598 | A lease issued before a lock, restore or close is never live after it, even after a later unlock |
| `VaultCoordinator.NoBorrowWhileDraining` | backend/desktopaccount/coordinator.go:758-782 | No borrow starts while draining |
| `VaultCoordinator.CloseIsPermanent` | backend/desktopaccount/coordinator.go:700-732 | A closed coordinator stays closed and publishes nothing |
| `VaultCoordinator.EveryStateSafe` | backend/desktopaccount/coordinator.go:622-782 | Every reachable state keeps the coordinator invariant |
| `VaultCoordinator.RefusedExactly` | backend/desktopaccount/coordinator.go:758-782 | Which refusal is given: closed, draining, migration pending, not configured, locked or open already, in this order |
| `VaultCoordinator.Coordinator.Unlock` | backend/desktopaccount/coordinator.go:325-362 | Refusals in order; publishing advances the generation; a step of the protocol that keeps its invariant |
| `VaultCoordinator.Coordinator.Borrow` | backend/desktopaccount/coordinator.go:734-747 | Refusals in order; counts the borrow at its generation; a step of the protocol that keeps its invariant |
| `VaultCoordinator.Coordinator.ReleaseOperation` | backend/desktopaccount/coordinator.go:749-756 | Returns one borrow; a step of the protocol that keeps its invariant |
| `VaultCoordinator.Coordinator.Live` | backend/desktopaccount/coordinator.go:585-598 | An unreleased lease is live exactly while the coordinator is neither closed nor draining, and then reads the published instance |
| `VaultCoordinator.Coordinator.BeginLock` | backend/desktopaccount/coordinator.go:666-680 | Waits, refuses, finds nothing to do or starts draining; a step of the protocol that keeps its invariant |
| `VaultCoordinator.Coordinator.BeginClose` | backend/desktopaccount/coordinator.go:700-716 | Waits, finds it closed, closes idle or starts draining; a step of the protocol that keeps its invariant |
| `VaultCoordinator.Coordinator.TryDetach` | backend/desktopaccount/coordinator.go:680-690 | Detaches exactly when no borrow is out; a step of the protocol that keeps its invariant |
| `VaultCoordinator.Coordinator.TryRestore` | backend/desktopaccount/coordinator.go:622-662 | Advances the generation exactly when no borrow is out; a step of the protocol that keeps its invariant |
| `VaultCoordinator.Coordinator.BeginRestore` | backend/desktopaccount/coordinator.go:622-631 | Refusals in order, or starts draining; a step of the protocol that keeps its invariant |
| `VaultCoordinator.Coordinator.DetachFailedRestore` | backend/desktopaccount/coordinator.go:641-650 | A failed restore detaches its instance while draining; a step of the protocol that keeps its invariant |
| `VaultCoordinator.Coordinator.EndDrain` | backend/desktopaccount/coordinator.go:653-660 | Ends the drain of its owner; a step of the protocol that keeps its invariant |
| `LoginThrottle.Progression` | backend/control/login_throttle.go:92-175 | For every run of failures in time order the stored row is that of the recorded history, its level is at most 18 and fits the schema, and the reply follows the documented progression |
| `LoginThrottle.FailureFollowsHistory` | backend/control/login_throttle.go:92-175 | The k-th lock since the decay begins with the (k times MaxFailures)-th recorded failure and lasts exactly min(base times 2^(k-1), max); a failure during a lock changes nothing and answers the instant at which that lock ends |
| `LoginThrottle.QueryFollowsHistory` | backend/control/login_throttle.go:55-85 | A query during a lock answers the instant at which it ends in terms of the history, and none outside one |
| `LoginThrottle.DecayLeavesLock` | backend/control/login_throttle.go:23-37 | Waiting out a lock alone never resets the escalation |
| `LoginThrottle.CapIsInvisible` | backend/control/login_throttle.go:131-147 | Capping the stored level changes no lock duration |
| `LoginThrottle.PurgingIsInvisible` | backend/control/login_throttle.go:197-210 | For every sequence of failures, clears and queries in time order, replies with purges anywhere equal replies without |
| `LoginThrottle.ForgettingIsInvisibleExactly` | backend/control/login_throttle.go:190-210 | After any operations and a purge, whatever the clock does, the next operation on an account differs if and only if the purge took a row that is locked then, or that has not decayed by then and whose counters mean something (they mean nothing when one failure locks and locks never grow) |
| `LoginThrottle.EveryRowCounts` | backend/control/login_throttle.go:105-165 | Every row a store can hold counts a failure or a lock, below the failure limit and within the level cap, in whatever order the clock presents the operations |
| `LoginThrottle.PurgeThenClockBack` | backend/control/login_throttle.go:197-210 | With valid operation times and a clock that runs backwards a purge can be seen: time order is needed |
| `LoginThrottle.RecordFailure` | backend/control/login_throttle.go:105-165 | The transaction body computes the specified row and reply |
| `LoginThrottle.LockDuration` | backend/control/login_throttle.go:142-148 | The doubling loop yields min(base times 2^(level-1), max) |
| `LoginThrottle.MaxLevel` | backend/control/login_throttle.go:135-141 | The counting loop yields the least level that reaches the maximum |
| `LoginThrottle.Store.RegisterLoginFailure` | backend/control/login_throttle.go:92-175 | Refuses exactly a key that is not 64 lower-case hexadecimal digits, a policy outside its bounds or a time outside the years 2000 to 9999; otherwise stores the row and purges at every 128th write |
| `LoginThrottle.Store.ClearLoginFailures` | backend/control/login_throttle.go:180-192 | Removes the account's row only; refuses exactly a malformed key |
| `LoginThrottle.Store.LoginThrottleLockedUntil` | backend/control/login_throttle.go:55-85 | Refuses exactly a malformed key or time, otherwise reports the lock in force, if any |
| `ControlPlane.EveryStateSafe` | backend/control/users.go:56-81 | In every reachable state a bootstrapped database has an active admin, every pending invitation or ticket was issued by a currently active admin, every pending ticket is for an active user who has no other, and every user has exactly one active recovery envelope |
| `ControlPlane.RunAuthorized` | backend/control/users.go:261-424 | Every operation keeps pending capabilities backed |
| `ControlPlane.RunRecoverable` | backend/control/credentials.go:235-252 | Every operation keeps exactly one active recovery envelope and one password per user |
| `ControlPlane.StaleCredentialNeverCommits` | backend/control/credentials.go:47-79 | Once a password has been replaced, no login or change naming the replaced credential ever commits again |
| `ControlPlane.RevisionsOnlyGrow` | backend/control/credentials.go:139-169 | A password stays as it is or gets a strictly later revision |
| `ControlPlane.RevokingKeepsAuthorized` | backend/control/users.go:351-367 | Whatever becomes of a user whose capabilities are revoked, the rest stays backed |
| `ControlPlane.SwapRecoverable` | backend/control/credentials.go:273-310 | Swapping the expected envelope keeps exactly one active |
| `ControlPlane.RoleAuthorized` | backend/control/users.go:314-349 | A role change never leaves a capability of a demoted admin or the system without admin |
| `ControlPlane.DisableAuthorized` | backend/control/users.go:261-293 | Disabling keeps an active admin and revokes what it must |
| `ControlPlane.TicketAuthorized` | backend/control/password_reset.go:73-106 | A new ticket is backed and the only pending one of its user |
| `ControlPlane.ResetAuthorized` | backend/control/password_reset.go:192-288 | Completing a reset leaves no pending ticket unbacked |
| `ControlStore.Store.DisableUser` | backend/control/users.go:261-293 | Succeeds exactly for another user of an active admin at a valid time; then the user is inactive, exactly the pending invitations and tickets the user stands behind are revoked, and all other rows stay; otherwise nothing changes; keeps all invariants |
| `ControlStore.Store.SetUserRole` | backend/control/users.go:314-349 | Succeeds exactly unless the last active admin would go; exactly what a demoted admin stands behind is revoked, other rows stay; otherwise nothing changes; keeps all invariants |
| `ControlStore.Store.InsertPreparedUser` | backend/control/users.go:507-547 | In a safe state succeeds exactly when identity, address, vault and envelope id are unused; then user, password and active recovery envelope are there together and nothing else changes; otherwise nothing changes |
| `ControlStore.Store.CreateInvitation` | backend/control/invitations.go:55-87 | Succeeds exactly when the address is free of accounts and of acceptable invitations; the new invitation is its only pending one, expired ones are closed, others stay; otherwise nothing changes; keeps all invariants |
| `ControlStore.Store.AcceptInvitation` | backend/control/invitations.go:154-189 | Succeeds exactly for a pending, unexpired invitation of that address and unused identities; user, password, envelope and consumption come together; an expiry is recorded; otherwise nothing changes; keeps all invariants |
| `ControlStore.Store.CreatePasswordResetTicket` | backend/control/password_reset.go:73-106 | Succeeds exactly for an active admin and an active user; the new ticket is the user's only pending one and others' tickets stay; otherwise nothing changes; keeps all invariants |
| `ControlStore.Store.CompletePasswordReset` | backend/control/password_reset.go:192-288 | Succeeds exactly for the user's pending, unexpired ticket and the active envelope the caller read; then the new envelope is the one active one, the password is later, no ticket of the user is pending, others' rows stay; an expiry is recorded; otherwise nothing changes; keeps all invariants |
| `ControlStore.DisableMeans` | backend/control/users.go:261-293 | Disabling never fails for want of another admin: the actor is one; it revokes exactly what the user stands behind |
| `ControlStore.SetRoleMeans` | backend/control/users.go:314-349 | When a role change is refused, what it revokes and what stays |
| `ControlStore.InviteMeans` | backend/control/invitations.go:55-87 | When an invitation is refused, which ones expire and which stay |
| `ControlStore.AcceptMeans` | backend/control/invitations.go:154-189 | In a safe state the only obstacles are identity, address, vault and envelope id in use |
| `ControlStore.IssueMeans` | backend/control/password_reset.go:73-106 | When a ticket is refused, which ones close and which stay |
| `ControlStore.ResetMeans` | backend/control/password_reset.go:192-288 | In a safe state the user is active, has no sibling ticket and no second envelope, so the update of five tables touches one row each |
| `ControlStore.BootstrapMeans` | backend/control/users.go:56-81 | A bootstrap succeeds exactly on an empty system; then there is one active admin with password and envelope |
| `ControlStore.EnableMeans` | backend/control/users.go:295-312 | Enabling succeeds exactly for an active admin and a stored user; then the user is active and nothing else changes |
| `ControlStore.RevokeInvitationMeans` | backend/control/invitations.go:199-224 | Exactly the named pending invitation is revoked, by an active admin, and nothing else changes |
| `ControlStore.RevokeTicketMeans` | backend/control/password_reset.go:298-327 | The same of a reset ticket |
| `ControlStore.LoginMeans` | backend/control/credentials.go:47-79 | A login is recorded exactly for an active user whose credential is the one named, and changes nothing else |
| `ControlStore.ReplacePasswordMeans` | backend/control/credentials.go:139-169 | A password is replaced exactly for an active user whose credential is the one named, by a different and later one; others stay |
| `ControlStore.RotateMeans` | backend/control/credentials.go:235-252 | A rotation revokes exactly the active envelope the caller read and stores the new one as the only active one; others stay |
| `JpegContainer.ValidateJpeg` | backend/core/image_security.go:248-320 | Terminates on every input, although an offset steps back, and accepts exactly the recogniser's language |
| `JpegContainer.JpegAcceptedIsJpeg` | backend/core/image_security.go:248-320 | Accepted are exactly the strings that are SOI, marker segments and scans tiling the input, and one EOI last |
| `JpegContainer.SkipScan` | backend/core/image_security.go:295-315 | Skips exactly the entropy-coded data |
| `JpegContainer.ReadSegment` | backend/core/image_security.go:276-294 | Reads exactly one marker segment |
| `ChunkedImages.ValidatePng` | backend/core/image_security.go:322-344 | Terminates without an out-of-range index and accepts exactly the recogniser's language |
| `ChunkedImages.PngAcceptedIsPng` | backend/core/image_security.go:322-344 | Accepted are exactly the signature, chunks tiling the input, and one empty IEND chunk last |
| `ChunkedImages.ValidateWebP` | backend/core/image_security.go:422-455 | Terminates without an out-of-range index and accepts exactly the recogniser's language |
| `ChunkedImages.WebPAcceptedIsStillWebP` | backend/core/image_security.go:422-455 | Accepted are exactly RIFF/WEBP files whose padded chunks tile the input, with no animation |
| `GifContainer.ValidateGif` | backend/core/image_security.go:346-405 | Terminates without an out-of-range index and accepts exactly the recogniser's language |
| `GifContainer.GifAcceptedIsSingleFrame` | backend/core/image_security.go:346-405 | Accepted are exactly the GIF files with one image among extension blocks and the trailer last |
| `GifContainer.SkipSubBlocks` | backend/core/image_security.go:407-420 | Skips exactly a chain of sub-blocks and its terminator |

## Left out

- HTTP routing, cookies, JSON decoding, desktop bindings, the frontend and scripts: plumbing without a deep property.
- File-system identity, locking, snapshots and at-rest protection: behaviour of operating-system calls.
- Cryptography, key envelopes, SQLCipher and WebAuthn: envelopes are opaque values, passkey rows are not modelled.
- Desktop legacy migration and manifest file publication: a migration is one configuration step of the coordinator.
- Pixel decoding, MIME sniffing, temp-file spooling, the process-wide memory budget and cancellation: they only add refusals.
- AI credentials, the AI console relay and TOTP: single-branch checks or simple counters.
- Exact date formats: a stored date is an ordered key with a day; how the driver renders it as text is a parameter, and a stored date is one whose text reads back.
- Dates stored in mixed text formats on one day: the database orders the stored text, the model an abstract key, so a change of order through a round trip of such rows is not seen.
- The JSON text of the manifest and the header line: both are parameters of the file format; the manifest's meaning is modelled.
- The order of tags, links and settings in an archive: any order is modelled, since the parser does not depend on it.
- The check of every raw cell for valid UTF-8 and the byte order mark in front of a file: character classes are parameters.
- The restore bounds asked before the export starts: they count a part of what the export itself counts against the same limits.
- Crashes of the process in the composed save protocol: `SaveQueue` has them, `SaveDelivery` starts after one.
- Integer cells: blanks are trimmed as ASCII blanks only.
- Control transactions that update one table (enabling, revoking, logins, password and envelope changes) and the bootstrap: modelled as steps of `ControlPlane`, not as methods.
- Control rows: an invitation or ticket has one key for its id and token hash; validators of names, emails and envelopes are not modelled.
- Coordinator generations: unbounded numbers; database instances that fail to open are never published and not modelled.
- Account order in the balance history and float rounding of ratios: accounts are a set, ratios are exact reals.
