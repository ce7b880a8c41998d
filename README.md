# RIT catalog metadata crawler, in Dafny

This project models the metadata side of `RITCatalog`, the class in
`nrcatalogtools/rit.py` that finds and reads metadata for numerical-relativity
simulations of the RIT catalog. It has three parts.

- **The name deriver** (`names.dfy`, module `Names`). A simulation index,
  resolution and id become the two candidate metadata file names. The
  quasicircular one is `RIT:BBH:{:04d}-n{:3d}-id{:d}_Metadata.txt` and the
  eccentric one is `RIT:eBBH:{:04d}-n{:3d}-ecc_Metadata.txt`. From these come
  the simulation names, the two search tags and the waveform file name. Names
  are also read back into numbers. These are pure functions. The lemmas prove
  prefix facts, idempotence and round trips.
- **The metadata line parser** (`parser.dfy`, module `MetadataParser`).
  `parse_metadata_txt` keeps the lines that start with a letter. It reads each
  kept line as `key = value` into a dictionary, and a later line overwrites an
  earlier one with the same key. The method `ParseMetadataTxt` fills the
  dictionary in a loop and is proved equal to the function `ParseSpec`. The
  lemmas are about `ParseSpec`.
- **The crawl** (`catalog.dfy`, module `Catalog`). The class `RITCatalog` has
  these fields:
  - the settings and the server, which do not change;
  - the metadata directory, a `Store` of files with their lines and their
    listing order;
  - the stored table, which stands for `metadata.csv`;
  - `metadata`, the table in memory;
  - `numOfSims`.

  These methods change the fields:
  - `FetchMetadata` (`fetch_metadata`);
  - `FetchMetadataFromCache` (`fetch_metadata_from_cache`);
  - `FetchMetadataForCatalog` (`fetch_metadata_for_catalog`).

  Each method is proved equal to a specification function over values:
  `FetchSpec`, `FromCacheSpec` or `CatalogSpec`. What the source promises is
  proved about those functions.

Python behaviour the code relies on is written out in `pystrings.dfy`:
- `str.split` on one character, and `str.strip` over ASCII whitespace;
- `t in s`, and slices with negative bounds;
- `int(...)` of a string, and whether `float(...)` accepts a string;
- the `{:d}`, `{:04d}` and `{:3d}` formats.

Exceptions become `Err` values of `Wrappers.Result`. Each `Error` case names the
Python failure it stands for:
- `NameFormat` is an `int(...)` or index failure in the name deriver.
- `MalformedLine` is a kept line without `=`, where `kv[1]` raises.
- `NoSimulationName` is a table row without a simulation name.
- `UnboundFileName` is the unbound `file_name` of `metadata_filename_from_cache`.
- `IndexMismatch` is the failed assertion in the table lookup.

What the model records about the code:
- `waveform_filename_from_simname` and `metadata_filename_from_simname` read the
  id as `int(txt[-1])`. So the metadata round trip holds for ids 0 to 9. The
  constructor's `max_id_val` of 6 keeps the crawl inside that range.
- `txt[:4]` reads the index, so the round trips hold for indices below 10000.
- `sim_info_from_metadata_filename` raises on every eccentric name, because
  `int("c")` fails. So a table row of an eccentric simulation that matches the
  searched index stops the crawl with an error (`SimInfoRejectsEccentric`).
- The table lookup breaks only out of the tag loop and scans every row. So the
  last matching row wins, and every matching row is checked against the index.
- A record the table lookup finds is appended to the table again.
- `metadata_filename_from_cache` keeps the match of the last tag that has one.
  So `fetch_metadata_from_cache` takes its waveform link from the eccentric file
  whenever the index has one, even when the record comes from the
  quasicircular file.
- `fetch_metadata` writes each kept line followed by `\n`, and the cache file
  is later read with `readlines()` in text mode. Universal newlines also end a
  line at `\r`, so a kept line holding `\r` comes back as two lines.
  `ReadBack` models that read-back, and the cache written by `FetchSpec` holds
  what it gives.
- `int(...)` also accepts single underscores between digits, as in `1_00`.
- With `num_sims_to_crawl <= 0` and no early return, the index loop does not
  run: `num_of_sims` is set to 0 while the old `self.metadata` is returned
  (`CatalogNoIndices`).

## Model

| member | source | states |
|---|---|---|
| Names.SimnameFromMetadataFilename | nrcatalogtools/rit.py:82-83 | the result is a prefix of the file name and does not contain `_Meta`; when it is shorter than the file name, `_Meta` follows it |
| Names.SimnameIdempotent | nrcatalogtools/rit.py:82-83 | taking the simulation name of a simulation name changes nothing |
| Names.SimnameOfUnmarked | nrcatalogtools/rit.py:82-83 | a name without `_Meta` is its own simulation name |
| Names.SimnameBeforeMarker | nrcatalogtools/rit.py:82-83 | for a text without `_`, the simulation name of that text followed by `_Meta` and anything is the text |
| Names.SimnameKeepsPrefix | nrcatalogtools/rit.py:82-83 | a prefix without `_` of a file name is still a prefix of its simulation name |
| Names.MetadataFilenames | nrcatalogtools/rit.py:139-143 | there are two file names, quasicircular first; each starts with the simulation tag of its own family |
| Names.FamilyTags | nrcatalogtools/rit.py:139-143 | the quasicircular file name starts with `RIT:BBH:` and the eccentric one with `RIT:eBBH:` |
| Names.Simnames | nrcatalogtools/rit.py:160-164 | there are two simulation names; each is a prefix of the file name at the same position and does not contain `_Meta` |
| Names.QcSimnameOfTemplate | nrcatalogtools/rit.py:139-143 | the quasicircular file name is its simulation name followed by `_Metadata.txt`, and the simulation name gives that name back |
| Names.EccSimnameOfTemplate | nrcatalogtools/rit.py:139-143 | the same for the eccentric file name |
| Names.SimnamesOfTemplates | nrcatalogtools/rit.py:160-164 | `simnames` gives the two file names without `_Metadata.txt`, quasicircular first |
| Names.TagsArePrefixes | nrcatalogtools/rit.py:139-143 | there are two file names and two tags; the first file name is quasicircular and the second eccentric; each tag is a prefix of the simulation name of the same position, and that name is a prefix of its file name |
| Names.Simtags | nrcatalogtools/rit.py:166-170 | there are two tags, and neither contains `_`, so cutting a name at `_Meta` keeps the tag |
| Names.IndexAndResolution | nrcatalogtools/rit.py:91-93 | a failure to read the index or resolution is a name-format error on the given name |
| Names.IndexAndResolutionOfSimname | nrcatalogtools/rit.py:91-93 | from a simulation name of either family, the part after the last `:` reads back the index (below 10000) and the resolution |
| Names.QcFamilyMarker | nrcatalogtools/rit.py:94 | a quasicircular simulation name does not contain `eBBH` |
| Names.EccFamilyMarker | nrcatalogtools/rit.py:94 | an eccentric simulation name contains `eBBH` |
| Names.MetadataFilenameFromSimname | nrcatalogtools/rit.py:85-99 | a failure is a name-format error on the given name; a name containing `eBBH` gives a `RIT:eBBH:` file name, and any other name gives a `RIT:BBH:` one |
| Names.EccMetadataFromSimname | nrcatalogtools/rit.py:85-99 | an eccentric simulation name (index below 10000) gives back its metadata file name |
| Names.LastCharOfQcTail | nrcatalogtools/rit.py:96 | `int(txt[-1])` of a quasicircular name is the last decimal digit of its id |
| Names.LastCharOfEccTail | nrcatalogtools/rit.py:96 | `int(txt[-1])` of an eccentric name fails |
| Names.QcMetadataFromSimname | nrcatalogtools/rit.py:85-99 | a quasicircular simulation name (index below 10000, id 0 to 9) gives back its metadata file name |
| Names.QcMetadataFilenameRoundTrip | nrcatalogtools/rit.py:85-99 | `metadata_filename_from_simname(simname_from_metadata_filename(f))` is `f` for a quasicircular file name (index below 10000, id 0 to 9) |
| Names.EccMetadataFilenameRoundTrip | nrcatalogtools/rit.py:85-99 | the same for an eccentric file name (index below 10000) |
| Names.WaveformFilenameFromSimname | nrcatalogtools/rit.py:114-132 | a failure is a name-format error on the given simulation name |
| Names.QcMetadataWaveform | nrcatalogtools/rit.py:129-132 | reassembling a quasicircular metadata file name gives `ExtrapStrain_RIT-BBH-{idx:04d}-n{res:3d}.h5` |
| Names.EccMetadataWaveform | nrcatalogtools/rit.py:129-132 | reassembling an eccentric metadata file name gives `ExtrapStrain_RIT-eBBH-{idx:04d}-n{res:3d}.h5` |
| Names.QcWaveformFilename | nrcatalogtools/rit.py:114-132 | the waveform file name of a quasicircular simulation name (index below 10000) is the BBH one with the same index and resolution |
| Names.EccWaveformFilename | nrcatalogtools/rit.py:114-132 | the waveform file name of an eccentric simulation name (index below 10000) is the eBBH one with the same index and resolution, reached through the failing `int(txt[-1])` |
| Names.WaveformFilenameExample | nrcatalogtools/rit.py:116 | `RIT:BBH:0005-n100-id0` gives `ExtrapStrain_RIT-BBH-0005-n100.h5` |
| Names.SimInfoRoundTrip | nrcatalogtools/rit.py:172-175 | a quasicircular metadata file name (index below 10000) reads back as its (index, resolution, id) |
| Names.SimInfoFromMetadataFilename | nrcatalogtools/rit.py:172-175 | a failure is a name-format error on the given file name |
| Names.SimInfoOfQcSimname | nrcatalogtools/rit.py:172-175 | a quasicircular simulation name, the form the table lookup passes, reads back the same way |
| Names.SimInfoRejectsEccentric | nrcatalogtools/rit.py:172-175 | an eccentric simulation name cannot be read, because `int("c")` raises |
| PyStrings.JoinSplit | nrcatalogtools/rit.py:191 | joining the pieces of `split` with the separator gives the string back |
| PyStrings.SplitMany | nrcatalogtools/rit.py:191-195 | there is a second piece exactly when the separator occurs |
| PyStrings.Format04dRoundTrip | nrcatalogtools/rit.py:42 | `{:04d}` of an index below 10000 is four digits, and `int` reads the index back |
| PyStrings.Format3dRoundTrip | nrcatalogtools/rit.py:42-43 | `int` reads back the resolution `{:3d}` formatted, padding included |
| PyStrings.FormatDRoundTrip | nrcatalogtools/rit.py:42 | `int` reads back the id `{:d}` formatted |
| PyStrings.LastDigitRoundTrip | nrcatalogtools/rit.py:96 | the last character of `{:d}` reads as the value modulo 10 |
| PyStrings.PyIntUnderscore | nrcatalogtools/rit.py:92-93 | `int` accepts single underscores between digits: `int("1_00")` is 100 |
| MetadataParser.KeptLines | nrcatalogtools/rit.py:188 | the kept lines are a subsequence of the input, each starts with a letter, and every input line starting with a letter is kept as often as it occurs, while no other line is kept |
| MetadataParser.LineValue | nrcatalogtools/rit.py:191-195 | a line has a value exactly when it holds `=` |
| MetadataParser.ParseMetadataTxt | nrcatalogtools/rit.py:187-196 | the loop gives the same lines and dictionary, or the same error, as `ParseSpec` |
| MetadataParser.ParseSpec | nrcatalogtools/rit.py:187-196 | on success the lines are data lines whose `key = value` pairs build the dictionary; every failure is a malformed-line error |
| MetadataParser.ParseFields | nrcatalogtools/rit.py:187-196 | on success, the lines returned are the kept lines and the keys are exactly the stripped keys of the kept lines; a failure names a kept input line |
| MetadataParser.FieldsFromFacts | nrcatalogtools/rit.py:190-195 | the loop succeeds exactly when every line holds `=`; the keys are the starting keys plus those of the lines; a failure names an offending line |
| MetadataParser.FieldsLastWins | nrcatalogtools/rit.py:190-195 | the value of a key is the value of the last line with that key |
| MetadataParser.FieldsFirstLineWins | nrcatalogtools/rit.py:190-195 | a line no later line repeats the key of decides that key's value |
| MetadataParser.FieldsKeepUntouched | nrcatalogtools/rit.py:190-195 | a key no line mentions keeps its earlier value |
| MetadataParser.ParseEmptyIff | nrcatalogtools/rit.py:187-196 | the dictionary is empty exactly when no line is kept |
| MetadataParser.ParseSucceedsIff | nrcatalogtools/rit.py:187-196 | the parse succeeds exactly when every input line starting with a letter holds `=` |
| MetadataParser.CachedCopyParsesSame | nrcatalogtools/rit.py:249-251 | when no kept line holds `\r` or `\n`, the file written from the kept lines, each followed by a newline, is read back by `readlines()` and parses to the same dictionary |
| MetadataParser.ReparseWritten | nrcatalogtools/rit.py:249-251 | the file written from a parse's lines, none holding `\r` or `\n`, is read back and parses to those lines (newline kept) and the same dictionary |
| MetadataParser.ReadBackPlain | nrcatalogtools/rit.py:203-204 | `readlines()` in text mode gives back lines without `\r` or `\n` as they were written, each followed by a newline |
| MetadataParser.ReadBackSplitsAtCr | nrcatalogtools/rit.py:203-204 | a `\r` inside a written line splits it in two when read back: `k=x\ry=z` comes back as `k=x` and `y=z` |
| Catalog.Write | nrcatalogtools/rit.py:249-251 | writing a file gives it the new lines, leaves every other file as it was and adds no other file |
| Catalog.SearchNames | nrcatalogtools/rit.py:216-241 | the loop finds a name exactly when the dictionary is non-empty; the name is a candidate; the lines and dictionary are a parse |
| Catalog.SearchFirstHit | nrcatalogtools/rit.py:216-241 | the loop finds nothing exactly when every candidate reads nothing; a found name is the first candidate whose pass reads data, with that pass's lines and dictionary; a failure is the failing pass of the first candidate that does not read nothing |
| Catalog.TryName | nrcatalogtools/rit.py:222-238 | a non-empty cache file that fails to parse or has data decides the pass; otherwise a served link gives the parse of the server's text, and a link the server lacks gives an empty dictionary; a success is always a parse |
| Catalog.AddDerived | nrcatalogtools/rit.py:254-263 | the four derived keys are set to the given values, and every other field is kept |
| Catalog.Derived | nrcatalogtools/rit.py:254-263 | the record exists exactly when the waveform name can be derived; it has the four derived fields (simulation name, link, location and waveform location of the found file) and keeps every parsed field |
| Catalog.FetchSpec | nrcatalogtools/rit.py:207-266 | no non-empty cache file changes and the listing stays complete; without the cache, or when nothing is found, the cache is unchanged |
| Catalog.FetchOfCandidate | nrcatalogtools/rit.py:216-263 | the record is the derived record of the first candidate whose pass reads data, every earlier one reading nothing; with the cache on, that candidate's file is written with its kept lines, as `readlines()` would see them, exactly when it was missing or empty, and otherwise the cache is unchanged |
| Catalog.FetchWritesOnlyHit | nrcatalogtools/rit.py:243-251 | the cache after the call is the cache before it, or that cache with one candidate file, missing or empty before, written |
| Catalog.FetchServerHit | nrcatalogtools/rit.py:229-251 | when the quasicircular file is not read from the cache and the server has data for it, the record is derived from the server's text and, with the cache on, the file is written |
| Catalog.RITCatalog.FetchMetadata | nrcatalogtools/rit.py:207-266 | the method leaves the cache and returns the record as `FetchSpec` says |
| Catalog.RITCatalog.TryCandidate | nrcatalogtools/rit.py:222-238 | one pass of the candidate loop gives what `TryName` says |
| Catalog.RITCatalog.SearchCandidates | nrcatalogtools/rit.py:216-241 | the candidate loop gives what `SearchNames` says |
| Catalog.FetchHitNamed | nrcatalogtools/rit.py:254-263 | a found record has the four derived keys; its simulation name and metadata location belong to one of the two candidate names |
| Catalog.FetchCachesHit | nrcatalogtools/rit.py:243-251 | with the cache on, and no `\r` in the served texts of the candidates, a found record leaves its file non-empty in the cache; a file that was missing or empty now reads back to the same record |
| Catalog.WrittenHitReparses | nrcatalogtools/rit.py:249-251 | the written kept lines, none holding `\r` or `\n`, of a found dictionary read back to the same derived record |
| Catalog.CacheHitIgnoresServer | nrcatalogtools/rit.py:222-241 | a non-empty, parsable quasicircular cache file with data decides the result whatever the server holds: the record is derived from that file, and the cache is not written |
| Catalog.Glob | nrcatalogtools/rit.py:271-272 | a match is a cache file that starts with the tag |
| Catalog.GlobMissComplete | nrcatalogtools/rit.py:271-277 | when the listing covers every file, a miss means no cache file starts with the tag |
| Catalog.MetadataFilenameFromCache | nrcatalogtools/rit.py:101-112 | there is a result exactly when some tag matches; the eccentric tag's match wins when there is one, and the quasicircular tag's match is taken otherwise; the only failure is the unbound-name error |
| Catalog.WaveformFilenameFromCache | nrcatalogtools/rit.py:134-137 | the unbound-name error comes exactly when neither tag matches; any other failure is a name-format error |
| Catalog.CacheRecord | nrcatalogtools/rit.py:280-295 | the cache record has the found fields plus the derived keys and `waveform_data_link`; the derived keys are those of `fetch_metadata`, every other found field is kept, and the link is the waveform URL of the cached waveform name |
| Catalog.FromCacheSpec | nrcatalogtools/rit.py:268-297 | the cache lookup never gives the unbound-name error |
| Catalog.FromCacheNeverUnbound | nrcatalogtools/rit.py:268-297 | the cache lookup never reaches the unbound-name error, because it asks for the waveform name only after a tag has matched |
| Catalog.FromCacheHit | nrcatalogtools/rit.py:268-297 | a record from the cache comes from a cache file that starts with one of the tags |
| Catalog.FromCacheFirstHit | nrcatalogtools/rit.py:268-297 | the converse: a tag whose first match holds data, every earlier tag matching nothing or a file without data, decides the lookup, which returns that file's record |
| Catalog.RITCatalog.FetchMetadataFromCache | nrcatalogtools/rit.py:268-297 | the method returns what `FromCacheSpec` says |
| Catalog.CacheHitNamed | nrcatalogtools/rit.py:268-297 | a record from the cache has a simulation name that contains a tag of the index |
| Catalog.ScanOkIff | nrcatalogtools/rit.py:345-361 | the table lookup succeeds exactly when every row has a simulation name and every matching row reads to the searched index |
| Catalog.ScanMismatch | nrcatalogtools/rit.py:352-355 | a matching row whose name reads to another index makes the lookup fail |
| Catalog.ScanNoMatch | nrcatalogtools/rit.py:345-361 | with no matching row, a successful lookup finds nothing new |
| Catalog.ScanLastMatch | nrcatalogtools/rit.py:345-361 | a successful lookup returns the last matching row |
| Catalog.ScanRows | nrcatalogtools/rit.py:345-361 | a row the lookup finds is a row of the table that matches one of the tags |
| Catalog.TableHitNamed | nrcatalogtools/rit.py:345-361 | a row the lookup returns matches one of the tags |
| Catalog.RITCatalog.ScanTable | nrcatalogtools/rit.py:345-361 | the nested row and tag loops give what `ScanRows` says |
| Catalog.ProbeIds | nrcatalogtools/rit.py:366-379 | the id loop keeps every non-empty cache file and, when nothing is found, the cache |
| Catalog.ProbeRes | nrcatalogtools/rit.py:364-382 | the same for the resolution loop |
| Catalog.PairsLength | nrcatalogtools/rit.py:364-366 | the probing order holds exactly `len(possible_res) * max_id_in_name` pairs, `max_id_in_name` per resolution, so the probe makes at most that many fetches |
| Catalog.PairsAt | nrcatalogtools/rit.py:365-366 | the pair at position `a * maxId + b` of the probing order is (resolution `a`, id `b`): resolutions outside, ids inside |
| Catalog.ProbeResIsPairs | nrcatalogtools/rit.py:364-382 | the nested loops probe exactly the (resolution, id) pairs in that order and stop at the first hit |
| Catalog.ProbePairsHit | nrcatalogtools/rit.py:364-382 | a hit is `fetch_metadata` of one probed pair on the cache the probe started from, and every earlier pair found nothing |
| Catalog.ProbePairsMiss | nrcatalogtools/rit.py:364-382 | when the probe finds nothing, every pair found nothing |
| Catalog.ServerHitNamed | nrcatalogtools/rit.py:364-382 | a record from the server has a simulation name that contains a tag of the index |
| Catalog.RITCatalog.ProbeIdsOf | nrcatalogtools/rit.py:366-379 | the id loop gives the cache and result `ProbeIds` says |
| Catalog.RITCatalog.ProbeNetwork | nrcatalogtools/rit.py:364-382 | the resolution loop gives the cache and result `ProbeRes` says |
| Catalog.ResolveSpec | nrcatalogtools/rit.py:328-382 | looking up one index keeps every non-empty cache file and, when nothing is found, the cache |
| Catalog.ResolveCacheFirst | nrcatalogtools/rit.py:335-340 | with the cache on, a cache hit decides the index whatever the table and the server hold |
| Catalog.ResolveTableBeforeServer | nrcatalogtools/rit.py:345-364 | after a cache miss, a table hit decides the index whatever the server holds |
| Catalog.ResolveHitNamed | nrcatalogtools/rit.py:328-382 | whichever source finds a record, its simulation name contains a tag of the index |
| Catalog.RITCatalog.HuntIndex | nrcatalogtools/rit.py:328-382 | the three sources in turn give the cache and result `ResolveSpec` says |
| Catalog.CrawlStep | nrcatalogtools/rit.py:383-392 | after one index: the cache is what the three tiers left; the crawl stops exactly when the tiers fail; a miss leaves the table unchanged and a hit appends exactly the found record, named for that index; `self.metadata` is the table; with the cache on, the stored table is the table |
| Catalog.CrawlFrom | nrcatalogtools/rit.py:327-392 | the crawl never changes a non-empty cache file, and the listing stays complete |
| Catalog.CrawlGrows | nrcatalogtools/rit.py:327-392 | a successful crawl extends the starting table by at most one record per index |
| Catalog.CrawlNamed | nrcatalogtools/rit.py:327-392 | every record the crawl adds is named for one of the crawled indices |
| Catalog.FoundFrom | nrcatalogtools/rit.py:327-392 | the tiers find at most one record per index |
| Catalog.CrawlAppendsFound | nrcatalogtools/rit.py:383-384 | a successful crawl's table is the starting table followed by exactly the records the tiers found, in index order |
| Catalog.ResList | nrcatalogtools/rit.py:307-308 | a non-empty `possible_res` argument is used as given |
| Catalog.MaxId | nrcatalogtools/rit.py:309-310 | a positive `max_id_in_name` argument is used as given |
| Catalog.RITCatalog.CrawlIndices | nrcatalogtools/rit.py:327-392 | the index loop leaves the state `CrawlFrom` says |
| Catalog.CatalogSpec | nrcatalogtools/rit.py:299-395 | the whole call keeps every non-empty cache file |
| Catalog.CatalogEarlyReturn | nrcatalogtools/rit.py:314-322 | a stored table with at least `n - 1` rows answers with its first `n - 1` rows (Python slice rules) and nothing is fetched or written |
| Catalog.CatalogCrawlResult | nrcatalogtools/rit.py:325-395 | for `n >= 1`, a successful crawl returns `self.metadata`, sets `num_of_sims` to its length, and leaves the stored table equal to it when caching; the table is the starting table followed by exactly the records found for indices 1 to `n`, at most `n` of them, each named for its index |
| Catalog.CatalogNoIndices | nrcatalogtools/rit.py:325-395 | for `n <= 0` without the early return (which then means no stored table or caching off), the loop never runs: the old `self.metadata` is returned, `num_of_sims` becomes 0, and the cache and stored table are unchanged |
| Catalog.RITCatalog.FetchMetadataForCatalog | nrcatalogtools/rit.py:299-395 | the method leaves the cache, stored table, `metadata` and `numOfSims` and returns the result as `CatalogSpec` says |
| Catalog.RITCatalog.constructor | nrcatalogtools/rit.py:37-74 | the links and directories are derived from the catalog URL, the cache directory and the catalog name; the table is empty and `num_of_sims` is 0; the metadata directory given must list every file |

## Left out

- `url_exists` and `get_metadata_from_link` (HTTP with a retry loop) are not modelled. The server is a map from link to the text it serves, and a link it lacks stands for a failed `url_exists`.
- Reading and writing files, `mkdir` of the cache directories, and `expanduser`/`abspath` are not modelled. The metadata directory is a `Store` value, and paths are plain strings joined with `/`.
- `glob.glob`'s order is not specified by Python. The `Store`'s `order` field fixes it, and the first listed match is taken.
- pandas is not modelled. A DataFrame is a sequence of records. The CSV file is a stored table, copied whole, so CSV type conversion (`Path` to `str`, numbers read back) is not captured. `write_metadata_df_to_disk`, `read_metadata_df_from_disk` and `refresh_metadata_df_on_disk` appear only as the assignments to the stored table inside the crawl.
- The empty-file test on `metadata.csv` is folded into the stored table being present.
- `float()` is modelled as a predicate on the stripped text (`IsPyFloat`), and the value is kept as its literal text. Floating-point numbers, and underscores between the digits of a float, are not modelled.
- `print` output and `verbosity` are not modelled.
- `download_waveform_data`, `download_waveform_data_for_catalog` and `fetch_waveform_data_from_cache` are not modelled. The first two shell out to `wget`, and the last one only raises `NotImplementedError`.
- `parse_metadata_fom_link` and `parse_metadata_from_file` are not separate members: the parse of server text and of cache lines is inlined where they are used.
- `simname_from_cache` (nrcatalogtools/rit.py:145-158) is not modelled: nothing in the modelled operations calls it.
- `metadata_file_fmts` and the waveform formats are fixed to the constructor's defaults.
- Strings are sequences of characters. `isalpha`, `isspace` and `int` are modelled on ASCII characters only; `int` accepts a sign, surrounding whitespace and single underscores between digits.
- Names.QcMetadataFilenameRoundTrip: holds only for ids 0 to 9 and indices below 10000, because `int(txt[-1])` reads one digit and `txt[:4]` reads four.
- Names.SimInfoRoundTrip: holds only for indices below 10000, because `[-4:]` keeps four digits.
- MetadataParser.CachedCopyParsesSame: stated only for kept lines without `\r` or `\n`. Text-mode reading splits a line at a `\r`, so such a line does not read back as written (`ReadBack` models the split, `ReadBackSplitsAtCr` shows it).
- MetadataParser.ReparseWritten: stated only for lines without `\r` or `\n`, for the same reason.
- Catalog.FetchCachesHit: stated only for served texts without `\r`, for the same reason.
- Catalog.WrittenHitReparses: stated only for lines without `\r` or `\n`, for the same reason.
- Catalog.RITCatalog.constructor: requires a metadata directory whose listing names every file, as a real directory listing does.
