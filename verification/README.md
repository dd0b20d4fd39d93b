# hailcam retention engine, modelled in Dafny

hailcam keeps a rolling, size-bounded photo stream in an object store. The
capture script (`hailcamsnap.py`) runs a capture command and uploads each new
image under a time-derived key. The pack script (`hailcampack.py`) repeatedly
scans the same prefix. Each scan catalogues the image objects, sorts them
newest first, and walks them with a running byte total. Once the total would
pass `maxsize`, it deletes that entry and every older one. It then publishes
an `_index.html` page listing the catalog.

This project models the pure logic of both scripts. Store operations become
returned values. A scan returns the keys it deletes, in order, and the index
publication it makes: the entries the page lists, and the page text
`make_index` renders from them. A capture cycle returns the upload it would
perform.

Modules:

- `Wrappers`: `Option`, `Result` and `ConfigError`, the exception both scripts raise.
- `Seqs`: generic sequence facts (map, filter, permutations, duplicates, non-increasing integers).
- `Decimal`: `str()` of a non-negative integer and the value of a digit string.
- `Catalog`: the `KnownKey` record, store objects, the `i` name filter of `save_to_known`, the catalog loop of `scan`, total sizes.
- `Order`: `KnownKeyCmpDate` and the sort by it.
- `Expire`: `expire_1` and the expiry walk.
- `Index`: the string built by `make_index`, and a reader that parses it back.
- `Pack`: one whole `scan` cycle, and the idempotence of a second cycle.
- `SizeConfig`: `config_size` and the `maxsize` checks in the pack `config`.
- `Snap`: prefix normalisation, the `cfk2` user check, upload key naming, backend choice, and upload-only-on-success.

Where the written code differs from what a reader might expect, the model follows the code:

- The index lists every catalog entry, evicted ones included. `make_index` walks all of `known_keys`, and `expire_1` never removes anything from that list.
- The zero and below-4096 `maxsize` checks never fire, because they compare the raw string (see Findings).
- The size-parse error message is the constant `Invalid size str`. The code appends the literal `'str'`, not the input.

## Model

| member | source | states |
|---|---|---|
| Catalog.RelativeName | hailcampack.py:131 | `key[len(prefix):]` with Python's slice rules: the characters after the prefix, or nothing for a shorter key; prefix + name gives back a key under the prefix |
| Catalog.SaveToKnown | hailcampack.py:47-63 | an object is catalogued exactly when its relative name starts with `i`; the entry keeps the object's size and time, and prefix + name is the object's key |
| Catalog.BuildCatalog | hailcampack.py:128-131 | the catalog has no more entries than the listing has objects, and every entry has an image name |
| Catalog.BuildCatalogIsImageFilter | hailcampack.py:128-131 | the catalog is exactly the listing's entries that pass the `i` filter, in listing order |
| Catalog.BuildCatalogSound | hailcampack.py:131 | every catalog entry is the entry of some listed object |
| Catalog.BuildCatalogComplete | hailcampack.py:131 | every listed object whose relative name starts with `i` is catalogued |
| Catalog.BuildCatalogCons | hailcampack.py:130-131 | the catalog of a listing is the first object's contribution followed by the catalog of the rest |
| Catalog.BuildCatalogAfterDeletes | hailcampack.py:128-131 | cataloguing the store after deletes gives the old catalog without the entries whose keys were deleted, and the store stays a listing under the prefix |
| Catalog.CatalogNamesDistinct | hailcampack.py:131 | distinct store keys give distinct catalog names |
| Catalog.TotalSizePermutation | hailcampack.py:133 | reordering the catalog does not change its total size |
| Order.KnownKeyCmpDate | hailcampack.py:36-38 | the comparison is negative exactly when the first entry is newer, and zero exactly on equal times |
| Order.Insert | hailcampack.py:133 | inserting into a newest-first sequence keeps it newest first and adds exactly that entry |
| Order.SortByDate | hailcampack.py:133 | the sorted catalog is a permutation of the unsorted one and is non-increasing in mtime |
| Order.NewestFirstAgreeOnTimes | hailcampack.py:133 | two newest-first orders of the same entries have the same mtime at every position, so they differ only among ties |
| Order.NewestFirstUnique | hailcampack.py:133 | with no two equal times, the newest-first order is unique |
| Expire.Expire1 | hailcampack.py:65-72 | an entry is kept exactly when it fits on top of the running total; keeping adds its size and stays within maxsize; evicting pins the total to maxsize + 1 and issues exactly one delete of prefix + name |
| Expire.ExpireAll | hailcampack.py:135-136 | the walk issues at most one delete per entry; which entries and the final total are stated by Expire.ExpireAllKeepsPrefix |
| Expire.PinnedEvictsAll | hailcampack.py:66-69 | once the total is above the budget, every later entry is evicted, one delete each, in order |
| Expire.ExpireAllKeepsPrefix | hailcampack.py:135-136 | the walk keeps exactly the longest newest-first prefix whose bytes fit and deletes exactly the rest, one delete per evicted entry in sorted order; the final total is the kept bytes, or maxsize + 1 if anything was evicted |
| Expire.KeptPrefixExists | hailcampack.py:135-136 | a longest fitting prefix always exists |
| Expire.KeptPrefixUnique | hailcampack.py:135-136 | the longest fitting prefix is unique, because sizes are non-negative |
| Expire.WithinBudgetEvictsNothing | hailcampack.py:66-72 | when everything fits, nothing is deleted and the total is the sum of sizes |
| Expire.OversizeHeadEvictsAll | hailcampack.py:66-69 | an entry larger than maxsize is evicted even from an empty total, and so is everything after it |
| Expire.NoBackfillExample | hailcampack.py:66-69 | sizes 5, 5, 5 under budget 9 keep the first entry and delete the second and third |
| Index.MakeIndex | hailcampack.py:78-91 | the document starts with the fixed header and ends with the fixed footer |
| Index.Body | hailcampack.py:87-88 | no names give no lines, and otherwise the text starts with an image tag; the exact text is pinned by Index.ParseBodyRoundTrip |
| Index.FindQuote | hailcampack.py:88 | finds the first `"`, the character that closes an image name in a line |
| Index.ParseBodyStep | hailcampack.py:88 | one image line for a quote-free name reads back as that name, followed by whatever follows it |
| Index.ParseBodyRoundTrip | hailcampack.py:87-88 | the image lines read back as the names, in order, for quote-free names |
| Index.IndexRoundTrip | hailcampack.py:78-91 | reading the page back (strip the header and footer, then split the image lines) yields exactly the catalog's names, one per entry, in catalog order |
| Index.EmptyIndex | hailcampack.py:78-91 | an empty catalog gives only the header and the footer |
| Pack.Retain | hailcampack.py:133-138 | after the catalog loop, the sorted catalog is a newest-first permutation of the catalog; the index is written at prefix + `_index.html` with type text/html and ACL public-read, and it lists the whole sorted catalog |
| Pack.RetainIndexListsCatalog | hailcampack.py:87-88 | for names without `"`, the published index lists the whole sorted catalog, evicted entries included: reading it back yields exactly the catalog's names in sorted order |
| Pack.Scan | hailcampack.py:125-138 | the cycle's catalog is a newest-first permutation of the listed image entries; the index is written at prefix + `_index.html` with type text/html and ACL public-read, and it lists the whole catalog, evicted entries included |
| Pack.ScanStartsFresh | hailcampack.py:125-126 | the state before a scan has no influence on the scan's result |
| Pack.ScanKeepsNewestPrefix | hailcampack.py:133-136 | the kept bytes stay within maxsize; the deletes are exactly prefix + name of the entries after the kept prefix, in sorted order; the final total is the kept bytes or maxsize + 1 |
| Pack.CatalogHoldsImagesOnly | hailcampack.py:48-49 | every catalogued entry has a name starting with `i` and comes from the listing |
| Pack.ImageKeysAvoidIndex | hailcampack.py:76 | no image entry's key is the index document's key |
| Pack.IndexNeverExpired | hailcampack.py:76 | the index document is never catalogued and never deleted |
| Pack.DeletesHitEvictedOnly | hailcampack.py:69 | with distinct names, the deletes remove exactly the entries after the kept prefix |
| Pack.SurvivorsAreKeptPrefix | hailcampack.py:69 | the entries whose objects survive the deletes are, up to order, exactly the kept prefix |
| Catalog.BuildCatalogIgnoresIndex | hailcampack.py:96-98 | writing the index object, over an earlier copy or not, leaves the store a listing under the prefix and leaves its catalog unchanged |
| Pack.RescanCatalog | hailcampack.py:125-138 | on the store the previous cycle left (its deletes done, its index written), the next cycle's catalog holds exactly the previous cycle's kept entries |
| Pack.RetainWithinBudget | hailcampack.py:135-136 | a catalog whose bytes fit the budget loses nothing: no deletes, and the final total is the catalog's bytes |
| Pack.ScanIdempotent | hailcampack.py:125-138 | rerunning the scan on the store a cycle left (its deletes done, its index written) deletes nothing; its catalog is the kept prefix up to tie order, with the same mtimes at every position, and its total is the kept bytes |
| Pack.NoDeletesFixedPoint | hailcampack.py:125-138 | a store whose catalog fits the budget loses nothing, and the cycle on the store with its index written repeats the first exactly |
| Pack.IndexRewrite | hailcampack.py:96-98 | writing the index again over a store nothing was deleted from replaces only the index object |
| Pack.ScanReachesFixedPoint | hailcampack.py:125-138 | from the second cycle on, the store changes only in its index object: the second cycle deletes nothing, the store it leaves is the first one with just the index rewritten, and a third cycle repeats the second exactly |
| Pack.ScanIdempotentDistinctTimes | hailcampack.py:125-138 | with no equal times among the kept entries, the second cycle's catalog, on the store the first cycle left, is exactly the kept prefix |
| SizeConfig.SizeLoop | hailcampack.py:148-164 | the loop fails only with the constant size error; the accumulated count never decreases; once a unit letter is read, it succeeds only if the string ends there; the exact outcome is stated by SizeConfig.SizeLoopAfterDigits |
| SizeConfig.LeadingDigits | hailcampack.py:149-152 | counts the digits a size string starts with; the character after them, if any, is not a digit |
| SizeConfig.SizeLoopAfterDigits | hailcampack.py:148-164 | after a run of digits, the loop succeeds exactly on digits followed by at most one unit letter, with value digits times unit multiplier |
| SizeConfig.ConfigSize | hailcampack.py:145-165 | the parse succeeds exactly on the grammar digit* unit?, with value digits × 1, 1024, 1024² or 1024³; otherwise it raises the ConfigError |
| SizeConfig.LeadingDigitsOfNumber | hailcampack.py:149-152 | a digit string followed by a non-digit has exactly its own length of leading digits |
| SizeConfig.SizeRoundTrip | hailcampack.py:145-165 | a decimal number with an optional unit letter parses to that number times the unit |
| SizeConfig.ConfigSizeExamples | hailcampack.py:145-165 | `12m`, `7` and `2g` parse to 12·1024², 7 and 2·1024³; `12mb`, `m12` and `12x` fail; `` and `k` give 0 |
| SizeConfig.PackMaxsize | hailcampack.py:199-206 | as written, the maxsize step returns exactly the parse result: the raw-string checks never reject |
| SizeConfig.PackMaxsizeAcceptsTinyBudgets | hailcampack.py:202-206 | as written, budgets `0` and `1k` are accepted |
| SizeConfig.MaxsizeChecked | hailcampack.py:202-206 | as intended, a parsed budget is accepted exactly when it is at least 4096, and zero gets the "Zero maxsize" error |
| SizeConfig.MaxsizeCheckedRejectsTinyBudgets | hailcampack.py:202-206 | as intended, `0` and `1k` are rejected and `4k` is accepted |
| Decimal.DigitChar | hailcamsnap.py:60 | each digit value has a digit character that reads back as it |
| Decimal.NatToString | hailcamsnap.py:60 | `str(n)` is a non-empty digit string that starts with `0` only for 0 |
| Decimal.NatToStringRoundTrip | hailcamsnap.py:60 | reading back `str(n)` gives `n` |
| Snap.RStrip | hailcamsnap.py:158 | `rstrip` returns a prefix of its input, removes only the stripped character, and leaves no trailing occurrence of it |
| Snap.NormalizePrefix | hailcamsnap.py:158 | the normalised prefix keeps the first character, is a prefix of the input, drops only slashes, and ends in `/` only when its length is at most 1 |
| Snap.NormalizePrefixIdempotent | hailcamsnap.py:158 | normalising twice equals normalising once |
| Snap.SplitPieces | hailcamsnap.py:154 | `split` always returns at least one piece |
| Snap.SplitPiecesOne | hailcamsnap.py:154 | `split(':')` has one piece exactly when the string has no `:` |
| Snap.CheckUser | hailcamsnap.py:154-155 | the check raises exactly when the mode is `cfk2` and the user has no `:`; any other mode accepts any user |
| Snap.Configure | hailcamsnap.py:154-158 | configuration fails exactly on the `cfk2` user check; otherwise only the prefix changes, to its normalised form |
| Snap.UploadKey | hailcamsnap.py:83 | the key is prefix + `/` + `i` + decimal tag (same as line 105); the part after prefix + `/` passes the catalog's `i` filter |
| Snap.UploadKeyInjective | hailcamsnap.py:83 | different upload times give different keys |
| Snap.UploadIsCatalogued | hailcamsnap.py:105 | an uploaded object, listed under the snap prefix plus `/`, is catalogued by the pack scan under `i` + decimal tag |
| Snap.SelectBackend | hailcamsnap.py:111-117 | mode `cfk2` selects Swift; every other mode selects S3 |
| Snap.UploadFor | hailcamsnap.py:81-108 | the upload goes to the configured bucket under the upload key through the selected backend; only S3 sets the public-read ACL |
| Snap.SnapCycle | hailcamsnap.py:181-184 | an upload happens exactly when the capture step returned 0, and then it is the one upload under the upload key |

## Left out

- Store client calls: connections, `get_bucket`/`create_bucket` with their error paths, `list`, `get_key`, `new_key`, content upload and `set_acl`. These are network I/O. The listing is an input, and deletes, index writes and uploads are returned values.
- Last-modified parsing through `rfc822.parsedate_tz`/`mktime_tz`. Each object's modification time is given as an integer.
- Ini parsing, missing-section and missing-option errors, and the `float(sleep)` parse. These are library calls and floating point.
- `fetch`: removing the old file, `shlex`/`subprocess`, and the exit on a missing command. These are OS and process I/O. The capture's exit status is an input to `Snap.SnapCycle`.
- The `while 1` loops, `time.sleep` and `time.time()`. The upload tag is an input.
- The command-line argument handling and usage messages of both scripts.
- Races between the two scripts, or between two pack scripts. Concurrency is not part of the model.
- The tenant/user split and the auth URL in `_upload_swift`, including the ValueError for users with more than one `:`. These only feed the Swift connection.
- Catalog.BuildCatalog: requires every listed key to extend the prefix by at least one character. A key equal to the prefix makes `name[0]` raise IndexError, and that crash is not modelled.
- Order.SortByDate: states permutation and newest-first order only. Python's `list.sort` is stable, but the model makes no claim about the order of entries with equal times, so idempotence is stated up to tie order.
- Pack.ScanIdempotent: requires distinct keys in the listing, as object-store keys are. The size and modification time the store records for the written index page are free parameters. The same holds for Pack.ScanReachesFixedPoint and Pack.ScanIdempotentDistinctTimes.
- Index.IndexRoundTrip: requires names without `"`. The code does not escape names, so a name with `"` cannot be read back unambiguously.
- `isdigit` is modelled as the ASCII digits `0`-`9`.

## Findings

| source | as written | input that shows it | evidently intended | confidence | as-written member | corrected member |
|---|---|---|---|---|---|---|
| hailcampack.py:202-206 | `maxsize == 0` and `maxsize < 4096` test the raw string, which in Python 2 never equals an int and never orders below one | `maxsize = 0` or `maxsize = 1k` is accepted, giving a budget of 0 or 1024 bytes | reject a parsed budget of 0 or below 4096 | not executed | SizeConfig.PackMaxsizeAcceptsTinyBudgets | SizeConfig.MaxsizeChecked |

The scan takes its budget as a plain number. Budgets validated by either member can be passed to it.
The second check also builds its message by adding the integer `cfg["maxsize"]` to a string, which Python rejects with a TypeError. `SizeConfig.MaxsizeChecked` writes the number out in decimal instead.
