/** The metadata crawl of `RITCatalog`: `fetch_metadata` (one simulation,
    both families, disk cache before the server), `fetch_metadata_from_cache`
    (whatever file of an index the cache holds) and
    `fetch_metadata_for_catalog` (every index in turn: cache, then the table
    built so far, then the server over resolution and id).

    The server is a map from link to the text it serves; the cache is the
    metadata directory, a map from file name to the lines `readlines()`
    gives; the metadata table is a sequence of records. */
module Catalog {
  import opened Wrappers
  import opened PyStrings
  import opened Names
  import opened MetadataParser

  // ----------------------------------------------------------------- state

  /** The metadata directory: each file's lines, and the order a listing
      shows the files in (what `glob.glob` returns them in). */
  datatype Store = Store(files: map<string, seq<string>>, order: seq<string>)

  /** Every file appears in the listing. */
  ghost predicate Listed(store: Store)
  {
    forall n :: n in store.files ==> n in store.order
  }

  /** `os.path.exists(mf) and os.path.getsize(mf) > 0`. */
  predicate NonEmpty(store: Store, name: string)
  {
    name in store.files && |store.files[name]| > 0
  }

  /** Creating or replacing one file. */
  function Write(store: Store, name: string, lines: seq<string>): (r: Store)
    ensures Listed(store) ==> Listed(r)
    ensures name in r.files && r.files[name] == lines
    ensures forall n :: n != name && n in store.files ==> n in r.files && r.files[n] == store.files[n]
    ensures forall n :: n in r.files ==> n == name || n in store.files
  {
    Store(store.files[name := lines], if name in store.order then store.order else store.order + [name])
  }

  /** Nothing that was non-empty has changed. */
  ghost predicate Preserves(before: Store, after: Store)
  {
    forall n :: NonEmpty(before, n) ==> n in after.files && after.files[n] == before.files[n]
  }

  lemma PreservesTrans(a: Store, b: Store, c: Store)
    requires Preserves(a, b) && Preserves(b, c)
    ensures Preserves(a, c)
  {
    forall n | NonEmpty(a, n) ensures n in c.files && c.files[n] == a.files[n] {
      assert NonEmpty(b, n);
    }
  }

  /** The catalog's settings, with the defaults' derived links and
      directories already joined. */
  datatype Config = Config(
    useCache: bool,
    metadataUrl: string,
    metadataDir: string,
    waveformDataUrl: string,
    waveformDataDir: string,
    possibleRes: seq<int>,
    maxIdVal: int)

  /** A row of the metadata table. */
  type Record = Fields

  type Table = seq<Record>

  /** `base + '/' + name`, for links and paths alike. */
  function Under(base: string, name: string): string
  {
    base + "/" + name
  }

  /** `url_exists(link)` and `get_metadata_from_link(link)` over the
      server's contents. */
  function ServerLines(server: map<string, string>, link: string): seq<string>
    requires link in server
  {
    Split(server[link], '\n')
  }

  // --------------------------------------------------------- fetch_metadata

  /** With the cache on, a non-empty cache file decides a pass when its
      parse fails or gives a non-empty dictionary. */
  predicate CacheDecides(cfg: Config, cache: Store, name: string)
  {
    && cfg.useCache && NonEmpty(cache, name)
    && (ParseSpec(cache.files[name]).Err? || |ParseSpec(cache.files[name]).value.1| > 0)
  }

  /** One pass of `fetch_metadata`'s loop for one candidate name: the cache
      file when caching and it is non-empty, then the server when the
      dictionary is still empty. The dictionary is empty when neither
      source has data. */
  function TryName(cfg: Config, server: map<string, string>, cache: Store, name: string)
    : (r: Result<(seq<string>, Fields)>)
    ensures r.Ok? ==> IsParse(r.value.0, r.value.1)
    ensures CacheDecides(cfg, cache, name) ==> r == ParseSpec(cache.files[name])
    ensures !CacheDecides(cfg, cache, name) && Under(cfg.metadataUrl, name) in server ==>
              r == ParseSpec(ServerLines(server, Under(cfg.metadataUrl, name)))
    ensures !CacheDecides(cfg, cache, name) && Under(cfg.metadataUrl, name) !in server ==>
              r.Ok? && r.value.1 == map[]
  {
    var link := Under(cfg.metadataUrl, name);
    var fromCache :=
      if cfg.useCache && NonEmpty(cache, name) then ParseSpec(cache.files[name]) else Ok(([], map[]));
    if fromCache.Err? || |fromCache.value.1| > 0 || link !in server then fromCache
    else ParseSpec(ServerLines(server, link))
  }

  /** `fetch_metadata`'s loop over the candidate names: the first name
      whose pass gives a non-empty dictionary, with its lines and
      dictionary; None when no name does. */
  function SearchNames(cfg: Config, server: map<string, string>, cache: Store, names: seq<string>)
    : (r: Result<(Option<string>, seq<string>, Fields)>)
    ensures r.Ok? ==> (r.value.0.Some? <==> |r.value.2| > 0)
    ensures r.Ok? ==> IsParse(r.value.1, r.value.2)
    ensures r.Ok? && r.value.0.Some? ==> r.value.0.value in names
    decreases |names|
  {
    if |names| == 0 then Ok((None, [], map[]))
    else
      var t := TryName(cfg, server, cache, names[0]);
      if t.Err? then Err(t.error)
      else if |t.value.1| > 0 then Ok((Some(names[0]), t.value.0, t.value.1))
      else SearchNames(cfg, server, cache, names[1..])
  }

  /** A pass that reads nothing: no error and an empty dictionary. */
  predicate GivesNothing(cfg: Config, server: map<string, string>, cache: Store, name: string)
  {
    TryName(cfg, server, cache, name).Ok? && |TryName(cfg, server, cache, name).value.1| == 0
  }

  /** The loop stops at the FIRST candidate whose pass fails or reads a
      non-empty dictionary, every earlier candidate reading nothing, and
      returns that pass; it finds nothing exactly when every candidate
      reads nothing. */
  lemma SearchFirstHit(cfg: Config, server: map<string, string>, cache: Store, names: seq<string>)
    ensures var r := SearchNames(cfg, server, cache, names);
      r.Ok? && r.value.0.None? <==> forall j :: 0 <= j < |names| ==> GivesNothing(cfg, server, cache, names[j])
    ensures var r := SearchNames(cfg, server, cache, names);
      r.Ok? && r.value.0.Some? ==>
        exists k :: 0 <= k < |names| && names[k] == r.value.0.value
          && TryName(cfg, server, cache, names[k]) == Ok((r.value.1, r.value.2))
          && forall j :: 0 <= j < k ==> GivesNothing(cfg, server, cache, names[j])
    ensures var r := SearchNames(cfg, server, cache, names);
      r.Err? ==>
        exists k :: 0 <= k < |names| && TryName(cfg, server, cache, names[k]) == Err(r.error)
          && forall j :: 0 <= j < k ==> GivesNothing(cfg, server, cache, names[j])
  {
    SearchNothingIff(cfg, server, cache, names);
    SearchFoundFirst(cfg, server, cache, names);
    SearchFailsFirst(cfg, server, cache, names);
  }

  /** Candidates that read nothing after one that reads nothing. */
  lemma NothingBefore(cfg: Config, server: map<string, string>, cache: Store, names: seq<string>, k: int)
    requires 0 <= k < |names| && GivesNothing(cfg, server, cache, names[0])
    requires forall j :: 0 <= j < k ==> GivesNothing(cfg, server, cache, names[1..][j])
    ensures forall j :: 0 <= j < k + 1 ==> GivesNothing(cfg, server, cache, names[j])
  {
    forall j | 0 <= j < k + 1 ensures GivesNothing(cfg, server, cache, names[j]) {
      if j > 0 { assert names[j] == names[1..][j - 1]; }
    }
  }

  /** The loop finds nothing exactly when every candidate reads nothing. */
  lemma {:induction false} SearchNothingIff(cfg: Config, server: map<string, string>, cache: Store, names: seq<string>)
    ensures var r := SearchNames(cfg, server, cache, names);
      r.Ok? && r.value.0.None? <==> forall j :: 0 <= j < |names| ==> GivesNothing(cfg, server, cache, names[j])
    decreases |names|
  {
    if |names| > 0 {
      var t := TryName(cfg, server, cache, names[0]);
      if t.Ok? && |t.value.1| == 0 {
        var rest := names[1..];
        SearchNothingIff(cfg, server, cache, rest);
        assert SearchNames(cfg, server, cache, names) == SearchNames(cfg, server, cache, rest);
        if forall j :: 0 <= j < |rest| ==> GivesNothing(cfg, server, cache, rest[j]) {
          NothingBefore(cfg, server, cache, names, |names| - 1);
        } else {
          var j :| 0 <= j < |rest| && !GivesNothing(cfg, server, cache, rest[j]);
          assert names[j + 1] == rest[j];
        }
      }
    }
  }

  /** A found name is the first candidate with data, every earlier one
      reading nothing. */
  lemma {:induction false} SearchFoundFirst(cfg: Config, server: map<string, string>, cache: Store, names: seq<string>)
    ensures var r := SearchNames(cfg, server, cache, names);
      r.Ok? && r.value.0.Some? ==>
        exists k :: 0 <= k < |names| && names[k] == r.value.0.value
          && TryName(cfg, server, cache, names[k]) == Ok((r.value.1, r.value.2))
          && forall j :: 0 <= j < k ==> GivesNothing(cfg, server, cache, names[j])
    decreases |names|
  {
    if |names| > 0 {
      var t := TryName(cfg, server, cache, names[0]);
      if t.Ok? && |t.value.1| == 0 {
        var rest := names[1..];
        SearchFoundFirst(cfg, server, cache, rest);
        var r := SearchNames(cfg, server, cache, names);
        assert r == SearchNames(cfg, server, cache, rest);
        if r.Ok? && r.value.0.Some? {
          var k :| 0 <= k < |rest| && rest[k] == r.value.0.value
            && TryName(cfg, server, cache, rest[k]) == Ok((r.value.1, r.value.2))
            && forall j :: 0 <= j < k ==> GivesNothing(cfg, server, cache, rest[j]);
          NothingBefore(cfg, server, cache, names, k);
          assert names[k + 1] == rest[k];
        }
      }
    }
  }

  /** A failure is the pass of the first candidate that does not read
      nothing. */
  lemma {:induction false} SearchFailsFirst(cfg: Config, server: map<string, string>, cache: Store, names: seq<string>)
    ensures var r := SearchNames(cfg, server, cache, names);
      r.Err? ==>
        exists k :: 0 <= k < |names| && TryName(cfg, server, cache, names[k]) == Err(r.error)
          && forall j :: 0 <= j < k ==> GivesNothing(cfg, server, cache, names[j])
    decreases |names|
  {
    if |names| > 0 {
      var t := TryName(cfg, server, cache, names[0]);
      if t.Ok? && |t.value.1| == 0 {
        var rest := names[1..];
        SearchFailsFirst(cfg, server, cache, rest);
        var r := SearchNames(cfg, server, cache, names);
        assert r == SearchNames(cfg, server, cache, rest);
        if r.Err? {
          var k :| 0 <= k < |rest| && TryName(cfg, server, cache, rest[k]) == Err(r.error)
            && forall j :: 0 <= j < k ==> GivesNothing(cfg, server, cache, rest[j]);
          NothingBefore(cfg, server, cache, names, k);
          assert names[k + 1] == rest[k];
        }
      }
    }
  }

  /** The keys `fetch_metadata` adds to a found dictionary. */
  const FetchKeys: set<string> :=
    {"simulation_name", "metadata_link", "metadata_location", "waveform_data_location"}

  /** `fields` with the four derived fields set. */
  function AddDerived(fields: Fields, sim: string, link: string, loc: string, wave: string): (r: Record)
    ensures r.Keys == fields.Keys + FetchKeys
    ensures forall k :: k in fields && k !in FetchKeys ==> r[k] == fields[k]
    ensures r["simulation_name"] == Text(sim) && r["metadata_link"] == Text(link)
    ensures r["metadata_location"] == Text(loc) && r["waveform_data_location"] == Text(wave)
  {
    assert |"simulation_name"| == 15 && |"metadata_link"| == 13;
    assert |"metadata_location"| == 17 && |"waveform_data_location"| == 22;
    fields["simulation_name" := Text(sim)]
          ["metadata_link" := Text(link)]
          ["metadata_location" := Text(loc)]
          ["waveform_data_location" := Text(wave)]
  }

  /** The found dictionary of metadata file `name` with the four derived
      fields; fails where the waveform file name cannot be derived. */
  function Derived(cfg: Config, name: string, fields: Fields): (r: Result<Record>)
    ensures r.Ok? <==> WaveformFilenameFromSimname(SimnameFromMetadataFilename(name)).Ok?
    ensures r.Ok? ==> r.value.Keys == fields.Keys + FetchKeys
    ensures r.Ok? ==> forall k :: k in fields && k !in FetchKeys ==> r.value[k] == fields[k]
    ensures r.Ok? ==>
      && r.value["simulation_name"] == Text(SimnameFromMetadataFilename(name))
      && r.value["metadata_link"] == Text(Under(cfg.metadataUrl, name))
      && r.value["metadata_location"] == Text(Under(cfg.metadataDir, name))
      && r.value["waveform_data_location"] == Text(Under(cfg.waveformDataDir,
           WaveformFilenameFromSimname(SimnameFromMetadataFilename(name)).value))
  {
    var sim := SimnameFromMetadataFilename(name);
    var wf := WaveformFilenameFromSimname(sim);
    if wf.Err? then Err(wf.error)
    else Ok(AddDerived(fields, sim, Under(cfg.metadataUrl, name), Under(cfg.metadataDir, name),
                       Under(cfg.waveformDataDir, wf.value)))
  }

  /** Writing a file that was missing or empty keeps every non-empty one. */
  lemma WritePreserves(store: Store, name: string, lines: seq<string>)
    requires !NonEmpty(store, name)
    ensures Preserves(store, Write(store, name, lines))
  {
  }

  /** A derived record as `fetch_metadata` returns it. */
  function AsFetched(rec: Result<Record>): (r: Result<Option<Record>>)
    ensures r.Ok? <==> rec.Ok?
    ensures r.Ok? ==> r.value == Some(rec.value)
    ensures r.Err? ==> r.error == rec.error
  {
    if rec.Err? then Err(rec.error) else Ok(Some(rec.value))
  }

  /** `fetch_metadata(idx, res, id_val)`: the cache afterwards and the
      record, None for the empty DataFrame. The cache file is written
      before the derived fields are computed. */
  function FetchSpec(cfg: Config, server: map<string, string>, cache: Store, idx: int, res: int, id: int)
    : (r: (Store, Result<Option<Record>>))
    ensures Preserves(cache, r.0) && (Listed(cache) ==> Listed(r.0))
    ensures !cfg.useCache || r.1 == Ok(None) ==> r.0 == cache
  {
    var s := SearchNames(cfg, server, cache, MetadataFilenames(idx, res, id));
    if s.Err? then (cache, Err(s.error))
    else if s.value.0.None? then (cache, Ok(None))
    else
      var name := s.value.0.value;
      var written :=
        if cfg.useCache && !NonEmpty(cache, name) then
          WritePreserves(cache, name, ReadBack(s.value.1));
          Write(cache, name, ReadBack(s.value.1))
        else cache;
      (written, AsFetched(Derived(cfg, name, s.value.2)))
  }

  /** `fetch_metadata` returns the derived record of the first candidate
      whose pass reads a non-empty dictionary, every earlier candidate
      reading nothing; with the cache on, it writes that candidate's kept
      lines to its file when the file was missing or empty, and changes
      nothing else. */
  lemma FetchOfCandidate(cfg: Config, server: map<string, string>, cache: Store, idx: int, res: int, id: int, k: int)
    requires 0 <= k < 2
    requires forall j :: 0 <= j < k ==> GivesNothing(cfg, server, cache, MetadataFilenames(idx, res, id)[j])
    requires TryName(cfg, server, cache, MetadataFilenames(idx, res, id)[k]).Ok?
    requires |TryName(cfg, server, cache, MetadataFilenames(idx, res, id)[k]).value.1| > 0
    ensures var name := MetadataFilenames(idx, res, id)[k];
      var t := TryName(cfg, server, cache, name).value;
      var r := FetchSpec(cfg, server, cache, idx, res, id);
      && r.1 == AsFetched(Derived(cfg, name, t.1))
      && r.0 == (if cfg.useCache && !NonEmpty(cache, name) then Write(cache, name, ReadBack(t.0)) else cache)
  {
    var names := MetadataFilenames(idx, res, id);
    if k == 1 {
      assert GivesNothing(cfg, server, cache, names[0]);
      assert names[1..][0] == names[1];
      assert SearchNames(cfg, server, cache, names) == SearchNames(cfg, server, cache, names[1..]);
    }
  }

  /** `after` is `before`, or `before` with one file of `names` that was
      missing or empty written. */
  ghost predicate WritesAtMostOne(before: Store, after: Store, names: seq<string>)
  {
    after == before || exists name :: name in names && !NonEmpty(before, name) && name in after.files
                                      && after == Write(before, name, after.files[name])
  }

  /** The only file `fetch_metadata` may write is the found candidate's,
      and only when it was missing or empty. */
  lemma FetchWritesOnlyHit(cfg: Config, server: map<string, string>, cache: Store, idx: int, res: int, id: int)
    ensures WritesAtMostOne(cache, FetchSpec(cfg, server, cache, idx, res, id).0, MetadataFilenames(idx, res, id))
  {
    var names := MetadataFilenames(idx, res, id);
    var r := FetchSpec(cfg, server, cache, idx, res, id);
    var s := SearchNames(cfg, server, cache, names);
    if s.Ok? && s.value.0.Some? && cfg.useCache && !NonEmpty(cache, s.value.0.value) {
      var name := s.value.0.value;
      var w := Write(cache, name, ReadBack(s.value.1));
      assert r.0 == w && w.files[name] == ReadBack(s.value.1);
      assert name in names && !NonEmpty(cache, name) && r.0 == Write(cache, name, r.0.files[name]);
    }
  }

  /** Without a non-empty quasicircular cache file, a quasicircular file
      on the server with data gives the record derived from the server's
      dictionary, and with the cache on its kept lines are written to the
      cache. */
  lemma FetchServerHit(cfg: Config, server: map<string, string>, cache: Store, idx: int, res: int, id: int)
    requires !(cfg.useCache && NonEmpty(cache, QcMetadataFilename(idx, res, id)))
    requires Under(cfg.metadataUrl, QcMetadataFilename(idx, res, id)) in server
    requires ParseSpec(ServerLines(server, Under(cfg.metadataUrl, QcMetadataFilename(idx, res, id)))).Ok?
    requires |ParseSpec(ServerLines(server, Under(cfg.metadataUrl, QcMetadataFilename(idx, res, id)))).value.1| > 0
    ensures var qc := QcMetadataFilename(idx, res, id);
      var p := ParseSpec(ServerLines(server, Under(cfg.metadataUrl, qc))).value;
      var r := FetchSpec(cfg, server, cache, idx, res, id);
      && r.1 == AsFetched(Derived(cfg, qc, p.1))
      && r.0 == (if cfg.useCache then Write(cache, qc, ReadBack(p.0)) else cache)
  {
    FetchOfCandidate(cfg, server, cache, idx, res, id, 0);
  }

  /** A record `fetch_metadata` finds is named after one of the candidate
      names of its (index, resolution, id), and points at that file. */
  lemma FetchHitNamed(cfg: Config, server: map<string, string>, cache: Store, idx: int, res: int, id: int)
    requires FetchSpec(cfg, server, cache, idx, res, id).1.Ok?
    requires FetchSpec(cfg, server, cache, idx, res, id).1.value.Some?
    ensures var rec := FetchSpec(cfg, server, cache, idx, res, id).1.value.value;
      && FetchKeys <= rec.Keys
      && exists k :: 0 <= k < 2
           && rec["simulation_name"] == Text(Simnames(idx, res, id)[k])
           && rec["metadata_location"] == Text(Under(cfg.metadataDir, MetadataFilenames(idx, res, id)[k]))
  {
    var names := MetadataFilenames(idx, res, id);
    var name := SearchNames(cfg, server, cache, names).value.0.value;
    var k := if name == names[0] then 0 else 1;
    assert name == names[k];
  }

  /** When caching, a found record leaves its metadata file non-empty in
      the cache; a file that was missing or empty before now holds the
      kept lines, which read back to the same record. */
  lemma FetchCachesHit(cfg: Config, server: map<string, string>, cache: Store, idx: int, res: int, id: int)
    requires cfg.useCache
    requires FetchSpec(cfg, server, cache, idx, res, id).1.Ok?
    requires FetchSpec(cfg, server, cache, idx, res, id).1.value.Some?
    requires forall k :: 0 <= k < 2 && Under(cfg.metadataUrl, MetadataFilenames(idx, res, id)[k]) in server ==>
               '\r' !in server[Under(cfg.metadataUrl, MetadataFilenames(idx, res, id)[k])]
    ensures var r := FetchSpec(cfg, server, cache, idx, res, id);
      exists name :: name in MetadataFilenames(idx, res, id) && NonEmpty(r.0, name)
        && (!NonEmpty(cache, name) ==>
              && ParseSpec(r.0.files[name]).Ok?
              && Derived(cfg, name, ParseSpec(r.0.files[name]).value.1) == Ok(r.1.value.value))
  {
    var names := MetadataFilenames(idx, res, id);
    var r := FetchSpec(cfg, server, cache, idx, res, id);
    var s := SearchNames(cfg, server, cache, names);
    var name := s.value.0.value;
    var lines := s.value.1;
    SearchFirstHit(cfg, server, cache, names);
    var k :| 0 <= k < |names| && names[k] == name && TryName(cfg, server, cache, names[k]) == Ok((lines, s.value.2))
      && forall j :: 0 <= j < k ==> GivesNothing(cfg, server, cache, names[j]);
    FetchOfCandidate(cfg, server, cache, idx, res, id, k);
    if !NonEmpty(cache, name) {
      ServerLinesPlain(cfg, server, cache, name);
      WrittenHitReparses(cfg, cache, name, lines, s.value.2, r.1.value.value);
    }
  }

  /** Lines without `\r` or `\n` whose dictionary is not empty, written to
      a file, read back to the same derived record. */
  lemma WrittenHitReparses(cfg: Config, cache: Store, name: string, lines: seq<string>, fields: Fields, rec: Record)
    requires IsParse(lines, fields) && |fields| > 0
    requires forall i :: 0 <= i < |lines| ==> '\r' !in lines[i] && '\n' !in lines[i]
    requires AsFetched(Derived(cfg, name, fields)) == Ok(Some(rec))
    ensures var w := Write(cache, name, ReadBack(lines));
      && NonEmpty(w, name)
      && ParseSpec(w.files[name]).Ok?
      && Derived(cfg, name, ParseSpec(w.files[name]).value.1) == Ok(rec)
  {
    ReparseWritten(lines, fields);
    ReadBackPlain(lines);
    assert |lines| > 0;
  }

  /** A pass that reads data for a file missing from the cache read it from
      the server; without `\r` in the server's text, none of its kept
      lines holds `\r` or `\n`. */
  lemma ServerLinesPlain(cfg: Config, server: map<string, string>, cache: Store, name: string)
    requires !NonEmpty(cache, name)
    requires TryName(cfg, server, cache, name).Ok? && |TryName(cfg, server, cache, name).value.1| > 0
    requires Under(cfg.metadataUrl, name) in server ==> '\r' !in server[Under(cfg.metadataUrl, name)]
    ensures var lines := TryName(cfg, server, cache, name).value.0;
      forall i :: 0 <= i < |lines| ==> '\r' !in lines[i] && '\n' !in lines[i]
  {
    var link := Under(cfg.metadataUrl, name);
    assert link in server;
    var raw := ServerLines(server, link);
    SplitAvoids(server[link], '\n', '\r');
    ParseFields(raw);
    assert TryName(cfg, server, cache, name).value.0 == KeptLines(raw);
    KeptLinesAvoid(raw);
  }

  /** A cache file of the quasicircular name that parses to a non-empty
      dictionary decides `fetch_metadata` whatever the server holds, and
      nothing is written. */
  lemma CacheHitIgnoresServer(cfg: Config, server1: map<string, string>, server2: map<string, string>,
                              cache: Store, idx: int, res: int, id: int)
    requires cfg.useCache
    requires NonEmpty(cache, QcMetadataFilename(idx, res, id))
    requires ParseSpec(cache.files[QcMetadataFilename(idx, res, id)]).Ok?
    requires |ParseSpec(cache.files[QcMetadataFilename(idx, res, id)]).value.1| > 0
    ensures FetchSpec(cfg, server1, cache, idx, res, id) == FetchSpec(cfg, server2, cache, idx, res, id)
    ensures FetchSpec(cfg, server1, cache, idx, res, id).0 == cache
    ensures var qc := QcMetadataFilename(idx, res, id);
      FetchSpec(cfg, server1, cache, idx, res, id).1 == AsFetched(Derived(cfg, qc, ParseSpec(cache.files[qc]).value.1))
  {
    var names := MetadataFilenames(idx, res, id);
    assert SearchNames(cfg, server1, cache, names) == SearchNames(cfg, server2, cache, names);
    FetchOfCandidate(cfg, server1, cache, idx, res, id, 0);
  }

  // ----------------------------------------------- fetch_metadata_from_cache

  /** The first name of `order` that is a file starting with `prefix`. */
  function FirstWithPrefix(files: map<string, seq<string>>, order: seq<string>, prefix: string)
    : (r: Option<string>)
    ensures r.Some? ==> r.value in files && prefix <= r.value && r.value in order
    ensures r.None? ==> forall i :: 0 <= i < |order| && order[i] in files ==> !(prefix <= order[i])
    decreases |order|
  {
    if |order| == 0 then None
    else if order[0] in files && prefix <= order[0] then Some(order[0])
    else FirstWithPrefix(files, order[1..], prefix)
  }

  /** `glob.glob(str(metadata_dir / tag) + "*")[0]`, as a file name; None
      for an empty list. */
  function Glob(store: Store, tag: string): (r: Option<string>)
    ensures r.Some? ==> r.value in store.files && tag <= r.value
  {
    FirstWithPrefix(store.files, store.order, tag)
  }

  /** In a listed store, a glob finds nothing only when no file matches. */
  lemma GlobMissComplete(store: Store, tag: string)
    requires Listed(store) && Glob(store, tag).None?
    ensures forall n :: n in store.files ==> !(tag <= n)
  {
    forall n | n in store.files ensures !(tag <= n) {
      var i :| 0 <= i < |store.order| && store.order[i] == n;
    }
  }

  /** `metadata_filename_from_cache(idx)`: the full path of the first glob
      match of the LAST simulation tag that has one; with no match at all
      the variable it returns is unbound. */
  function MetadataFilenameFromCache(cfg: Config, cache: Store, idx: int): (r: Result<string>)
    ensures r.Ok? <==> Glob(cache, Simtags(idx)[0]).Some? || Glob(cache, Simtags(idx)[1]).Some?
    ensures Glob(cache, Simtags(idx)[1]).Some? ==>
              r == Ok(Under(cfg.metadataDir, Glob(cache, Simtags(idx)[1]).value))
    ensures Glob(cache, Simtags(idx)[1]).None? && Glob(cache, Simtags(idx)[0]).Some? ==>
              r == Ok(Under(cfg.metadataDir, Glob(cache, Simtags(idx)[0]).value))
    ensures r.Err? ==> r.error == UnboundFileName
  {
    var tags := Simtags(idx);
    var last := Glob(cache, tags[1]);
    var first := Glob(cache, tags[0]);
    if last.Some? then Ok(Under(cfg.metadataDir, last.value))
    else if first.Some? then Ok(Under(cfg.metadataDir, first.value))
    else Err(UnboundFileName)
  }

  /** `waveform_filename_from_cache(idx)`. */
  function WaveformFilenameFromCache(cfg: Config, cache: Store, idx: int): (r: Result<string>)
    ensures r == Err(UnboundFileName) <==> Glob(cache, Simtags(idx)[0]).None? && Glob(cache, Simtags(idx)[1]).None?
    ensures r.Err? && r.error != UnboundFileName ==> r.error.NameFormat?
  {
    var mf := MetadataFilenameFromCache(cfg, cache, idx);
    if mf.Err? then Err(mf.error)
    else WaveformFilenameFromSimname(SimnameFromMetadataFilename(mf.value))
  }

  /** The record `fetch_metadata_from_cache` builds from cache file `name`:
      the derived fields of `fetch_metadata` and the waveform link. */
  function CacheRecord(cfg: Config, name: string, fields: Fields, wave: string): (r: Result<Record>)
    ensures r.Ok? <==> Derived(cfg, name, fields).Ok?
    ensures r.Ok? ==> r.value.Keys == fields.Keys + FetchKeys + {"waveform_data_link"}
    ensures r.Ok? ==> forall k :: k in FetchKeys ==> r.value[k] == Derived(cfg, name, fields).value[k]
    ensures r.Ok? ==> forall k :: k in fields && k !in FetchKeys && k != "waveform_data_link" ==> r.value[k] == fields[k]
    ensures r.Ok? ==> r.value["waveform_data_link"] == Text(Under(cfg.waveformDataUrl, wave))
  {
    var d := Derived(cfg, name, fields);
    if d.Err? then d
    else Ok(d.value["waveform_data_link" := Text(Under(cfg.waveformDataUrl, wave))])
  }

  /** `fetch_metadata_from_cache`'s loop from the tags `tags` on: a tag
      without a matching file is skipped, and so is one whose file holds
      no data. */
  function FromCacheFrom(cfg: Config, cache: Store, idx: int, tags: seq<string>): (r: Result<Option<Record>>)
    decreases |tags|
  {
    if |tags| == 0 then Ok(None)
    else
      var m := Glob(cache, tags[0]);
      if m.None? then FromCacheFrom(cfg, cache, idx, tags[1..])
      else
        var wf := WaveformFilenameFromCache(cfg, cache, idx);
        if wf.Err? then Err(wf.error)
        else
          var parsed := ParseSpec(cache.files[m.value]);
          if parsed.Err? then Err(parsed.error)
          else if |parsed.value.1| == 0 then FromCacheFrom(cfg, cache, idx, tags[1..])
          else
            var rec := CacheRecord(cfg, m.value, parsed.value.1, wf.value);
            if rec.Err? then Err(rec.error) else Ok(Some(rec.value))
  }

  /** `fetch_metadata_from_cache(idx)`. */
  function FromCacheSpec(cfg: Config, cache: Store, idx: int): (r: Result<Option<Record>>)
    ensures r != Err(UnboundFileName)
  {
    FromCacheNeverUnbound(cfg, cache, idx, Simtags(idx));
    FromCacheFrom(cfg, cache, idx, Simtags(idx))
  }

  /** The unbound variable of `metadata_filename_from_cache` is never
      reached from `fetch_metadata_from_cache`: it is only asked once a
      tag of the index has matched. */
  lemma {:induction false} FromCacheNeverUnbound(cfg: Config, cache: Store, idx: int, tags: seq<string>)
    requires forall k :: 0 <= k < |tags| ==> tags[k] in Simtags(idx)
    ensures FromCacheFrom(cfg, cache, idx, tags) != Err(UnboundFileName)
    decreases |tags|
  {
    if |tags| > 0 {
      var m := Glob(cache, tags[0]);
      if m.None? {
        FromCacheNeverUnbound(cfg, cache, idx, tags[1..]);
      } else {
        assert MetadataFilenameFromCache(cfg, cache, idx).Ok?;
        if WaveformFilenameFromCache(cfg, cache, idx).Ok? && ParseSpec(cache.files[m.value]).Ok? {
          FromCacheNeverUnbound(cfg, cache, idx, tags[1..]);
        }
      }
    }
  }

  /** Cache file `name` parses to a non-empty dictionary, and `rec` is that
      dictionary with the derived fields and the waveform link. */
  ghost predicate CacheHit(cfg: Config, cache: Store, idx: int, name: string, rec: Record)
  {
    && name in cache.files
    && ParseSpec(cache.files[name]).Ok?
    && |ParseSpec(cache.files[name]).value.1| > 0
    && WaveformFilenameFromCache(cfg, cache, idx).Ok?
    && CacheRecord(cfg, name, ParseSpec(cache.files[name]).value.1,
                   WaveformFilenameFromCache(cfg, cache, idx).value) == Ok(rec)
  }

  /** One tag of the loop: a hit at this tag, or whatever the later tags give. */
  lemma FromCacheStep(cfg: Config, cache: Store, idx: int, tags: seq<string>)
    requires |tags| > 0
    requires FromCacheFrom(cfg, cache, idx, tags).Ok? && FromCacheFrom(cfg, cache, idx, tags).value.Some?
    ensures || (Glob(cache, tags[0]).Some?
                && CacheHit(cfg, cache, idx, Glob(cache, tags[0]).value, FromCacheFrom(cfg, cache, idx, tags).value.value))
            || FromCacheFrom(cfg, cache, idx, tags) == FromCacheFrom(cfg, cache, idx, tags[1..])
  {
  }

  /** A record found in the cache comes from a cache file that starts with
      one of the tags. */
  lemma {:induction false} FromCacheHit(cfg: Config, cache: Store, idx: int, tags: seq<string>)
    requires FromCacheFrom(cfg, cache, idx, tags).Ok? && FromCacheFrom(cfg, cache, idx, tags).value.Some?
    ensures exists k, name ::
      0 <= k < |tags| && tags[k] <= name && CacheHit(cfg, cache, idx, name, FromCacheFrom(cfg, cache, idx, tags).value.value)
    decreases |tags|
  {
    var rec := FromCacheFrom(cfg, cache, idx, tags).value.value;
    FromCacheStep(cfg, cache, idx, tags);
    var m := Glob(cache, tags[0]);
    if m.Some? && CacheHit(cfg, cache, idx, m.value, rec) {
      assert tags[0] <= m.value;
    } else {
      var rest := tags[1..];
      assert FromCacheFrom(cfg, cache, idx, rest) == FromCacheFrom(cfg, cache, idx, tags);
      FromCacheHit(cfg, cache, idx, rest);
      var k, name :| 0 <= k < |rest| && rest[k] <= name && CacheHit(cfg, cache, idx, name, rec);
      assert tags[k + 1] == rest[k];
    }
  }

  /** The tag's first match is missing, or holds a file without data. */
  predicate TagMisses(cache: Store, tag: string)
  {
    Glob(cache, tag).None? ||
    (ParseSpec(cache.files[Glob(cache, tag).value]).Ok? && |ParseSpec(cache.files[Glob(cache, tag).value]).value.1| == 0)
  }

  /** A tag that misses is skipped once the waveform name can be derived. */
  lemma FromCacheSkip(cfg: Config, cache: Store, idx: int, tags: seq<string>)
    requires |tags| > 0 && TagMisses(cache, tags[0]) && WaveformFilenameFromCache(cfg, cache, idx).Ok?
    ensures FromCacheFrom(cfg, cache, idx, tags) == FromCacheFrom(cfg, cache, idx, tags[1..])
  {
  }

  /** A tag whose first match holds data gives that file's record. */
  lemma FromCacheTake(cfg: Config, cache: Store, idx: int, tags: seq<string>, rec: Record)
    requires |tags| > 0 && Glob(cache, tags[0]).Some? && CacheHit(cfg, cache, idx, Glob(cache, tags[0]).value, rec)
    ensures FromCacheFrom(cfg, cache, idx, tags) == Ok(Some(rec))
  {
  }

  /** The converse of `FromCacheHit`: a tag whose first match holds data,
      every earlier tag matching nothing or a file without data, decides
      the lookup, which returns that file's record. */
  lemma {:induction false} FromCacheFirstHit(cfg: Config, cache: Store, idx: int, tags: seq<string>, k: int, rec: Record)
    requires 0 <= k < |tags|
    requires forall j :: 0 <= j < k ==> TagMisses(cache, tags[j])
    requires Glob(cache, tags[k]).Some? && CacheHit(cfg, cache, idx, Glob(cache, tags[k]).value, rec)
    ensures FromCacheFrom(cfg, cache, idx, tags) == Ok(Some(rec))
    decreases k
  {
    if k == 0 {
      FromCacheTake(cfg, cache, idx, tags, rec);
    } else {
      var rest := tags[1..];
      FromCacheSkip(cfg, cache, idx, tags);
      forall j | 0 <= j < k - 1 ensures TagMisses(cache, rest[j]) {
        assert rest[j] == tags[j + 1];
      }
      assert rest[k - 1] == tags[k];
      var m := Glob(cache, tags[k]).value;
      assert Glob(cache, rest[k - 1]) == Some(m) && CacheHit(cfg, cache, idx, m, rec);
      FromCacheFirstHit(cfg, cache, idx, rest, k - 1, rec);
    }
  }

  // ------------------------------------------- the table built so far (tier 2)

  /** `row['simulation_name']` exists and is text, so `sim_tag in name`
      does not raise. */
  predicate HasName(row: Record)
  {
    "simulation_name" in row && row["simulation_name"].Text?
  }

  /** Some tag occurs in `name`. */
  predicate AnyContains(name: string, tags: seq<string>)
  {
    exists k :: 0 <= k < |tags| && Contains(name, tags[k])
  }

  /** The row is one the scan takes for the index. */
  predicate RowMatches(row: Record, tags: seq<string>)
  {
    HasName(row) && AnyContains(row["simulation_name"].text, tags)
  }

  /** The row does not stop the scan: it has a name, and when it matches a
      tag its name reads as a metadata file name of index `idx`. */
  predicate RowConsistent(row: Record, tags: seq<string>, idx: int)
  {
    && HasName(row)
    && (AnyContains(row["simulation_name"].text, tags) ==>
          && SimInfoFromMetadataFilename(row["simulation_name"].text).Ok?
          && SimInfoFromMetadataFilename(row["simulation_name"].text).value.0 == idx)
  }

  /** The scan of `sims.iterrows()` from row number `i` on: every row is
      looked at, a matching row's index is asserted, and the last matching
      row is kept in `acc`. */
  function ScanRows(rows: Table, tags: seq<string>, idx: int, i: nat, acc: Option<Record>)
    : (r: Result<Option<Record>>)
    ensures r.Ok? && r != Ok(acc) ==> r.value.Some? && r.value.value in rows && RowMatches(r.value.value, tags)
    decreases |rows|
  {
    if |rows| == 0 then Ok(acc)
    else
      var row := rows[0];
      if !HasName(row) then Err(NoSimulationName(i))
      else if !AnyContains(row["simulation_name"].text, tags) then ScanRows(rows[1..], tags, idx, i + 1, acc)
      else
        var info := SimInfoFromMetadataFilename(row["simulation_name"].text);
        if info.Err? then Err(info.error)
        else if info.value.0 != idx then Err(IndexMismatch(info.value.0, idx))
        else ScanRows(rows[1..], tags, idx, i + 1, Some(row))
  }

  /** The scan succeeds exactly when every row is consistent. */
  lemma {:induction false} ScanOkIff(rows: Table, tags: seq<string>, idx: int, i: nat, acc: Option<Record>)
    ensures ScanRows(rows, tags, idx, i, acc).Ok? <==> forall j :: 0 <= j < |rows| ==> RowConsistent(rows[j], tags, idx)
    decreases |rows|
  {
    if |rows| > 0 {
      var acc' := if RowMatches(rows[0], tags) then Some(rows[0]) else acc;
      ScanOkIff(rows[1..], tags, idx, i + 1, acc');
      assert forall j :: 1 <= j < |rows| ==> rows[j] == rows[1..][j - 1];
    }
  }

  /** A row that matches a tag of the index but names another index makes
      the assertion fail. */
  lemma ScanMismatch(rows: Table, tags: seq<string>, idx: int, i: nat, acc: Option<Record>, j: int)
    requires 0 <= j < |rows| && RowMatches(rows[j], tags)
    requires SimInfoFromMetadataFilename(rows[j]["simulation_name"].text).Ok?
    requires SimInfoFromMetadataFilename(rows[j]["simulation_name"].text).value.0 != idx
    ensures ScanRows(rows, tags, idx, i, acc).Err?
  {
    ScanOkIff(rows, tags, idx, i, acc);
  }

  /** With no matching row the scan gives `acc` back (or fails). */
  lemma {:induction false} ScanNoMatch(rows: Table, tags: seq<string>, idx: int, i: nat, acc: Option<Record>)
    requires forall j :: 0 <= j < |rows| ==> !RowMatches(rows[j], tags)
    ensures ScanRows(rows, tags, idx, i, acc).Ok? ==> ScanRows(rows, tags, idx, i, acc).value == acc
    decreases |rows|
  {
    if |rows| > 0 {
      assert !RowMatches(rows[0], tags);
      assert forall j :: 0 <= j < |rows[1..]| ==> rows[1..][j] == rows[j + 1];
      ScanNoMatch(rows[1..], tags, idx, i + 1, acc);
    }
  }

  /** The scan keeps the last matching row. */
  lemma {:induction false} ScanLastMatch(rows: Table, tags: seq<string>, idx: int, i: nat, acc: Option<Record>, j: int)
    requires 0 <= j < |rows| && RowMatches(rows[j], tags)
    requires forall k :: j < k < |rows| ==> !RowMatches(rows[k], tags)
    ensures ScanRows(rows, tags, idx, i, acc).Ok? ==> ScanRows(rows, tags, idx, i, acc) == Ok(Some(rows[j]))
    decreases |rows|
  {
    var rest := rows[1..];
    if j == 0 {
      assert forall k :: 0 <= k < |rest| ==> rest[k] == rows[k + 1];
      ScanNoMatch(rest, tags, idx, i + 1, Some(rows[0]));
    } else {
      var acc' := if RowMatches(rows[0], tags) then Some(rows[0]) else acc;
      assert rest[j - 1] == rows[j];
      assert forall k :: j - 1 < k < |rest| ==> rest[k] == rows[k + 1];
      ScanLastMatch(rest, tags, idx, i + 1, acc', j - 1);
    }
  }

  // ------------------------------------------------------ the server (tier 3)

  /** The inner loop: `fetch_metadata(idx, res, id_val)` for `id_val` from
      `id` up to `maxId`, stopping at the first record. */
  function ProbeIds(cfg: Config, server: map<string, string>, cache: Store, idx: int, res: int, id: int, maxId: int)
    : (r: (Store, Result<Option<Record>>))
    ensures Preserves(cache, r.0) && (Listed(cache) ==> Listed(r.0))
    ensures r.1 == Ok(None) ==> r.0 == cache
    decreases maxId - id
  {
    if id >= maxId then (cache, Ok(None))
    else
      var f := FetchSpec(cfg, server, cache, idx, res, id);
      if f.1 != Ok(None) then f
      else ProbeIds(cfg, server, f.0, idx, res, id + 1, maxId)
  }

  /** The outer loop over the resolutions, the inner one over the ids. */
  function ProbeRes(cfg: Config, server: map<string, string>, cache: Store, idx: int, resList: seq<int>, maxId: int)
    : (r: (Store, Result<Option<Record>>))
    ensures Preserves(cache, r.0) && (Listed(cache) ==> Listed(r.0))
    ensures r.1 == Ok(None) ==> r.0 == cache
    decreases |resList|
  {
    if |resList| == 0 then (cache, Ok(None))
    else
      var p := ProbeIds(cfg, server, cache, idx, resList[0], 0, maxId);
      if p.1 != Ok(None) then p
      else ProbeRes(cfg, server, p.0, idx, resList[1..], maxId)
  }

  /** `(res, id)` for the ids from `id` up to `maxId`. */
  function IdRange(res: int, id: int, maxId: int): (r: seq<(int, int)>)
    ensures |r| == if id < maxId then maxId - id else 0
    ensures forall k :: 0 <= k < |r| ==> r[k] == (res, id + k)
    decreases maxId - id
  {
    if id >= maxId then [] else [(res, id)] + IdRange(res, id + 1, maxId)
  }

  /** Every (resolution, id) pair, resolution by resolution. */
  function Pairs(resList: seq<int>, maxId: int): seq<(int, int)>
    decreases |resList|
  {
    if |resList| == 0 then [] else IdRange(resList[0], 0, maxId) + Pairs(resList[1..], maxId)
  }

  /** There are `maxId` pairs for each resolution. */
  lemma {:induction false} PairsLength(resList: seq<int>, maxId: int)
    requires maxId >= 0
    ensures |Pairs(resList, maxId)| == |resList| * maxId
    decreases |resList|
  {
    if |resList| > 0 {
      PairsLength(resList[1..], maxId);
      assert |resList| * maxId == maxId + (|resList| - 1) * maxId;
    }
  }

  /** The pair `a * maxId + b` is resolution number `a` with id `b`: the
      resolution loop is the outer one. */
  lemma {:induction false} PairsAt(resList: seq<int>, maxId: int, a: int, b: int)
    requires 0 <= a < |resList| && 0 <= b < maxId
    ensures a * maxId + b < |Pairs(resList, maxId)| && Pairs(resList, maxId)[a * maxId + b] == (resList[a], b)
    decreases |resList|
  {
    var head := IdRange(resList[0], 0, maxId);
    var tail := Pairs(resList[1..], maxId);
    assert Pairs(resList, maxId) == head + tail;
    if a > 0 {
      PairsAt(resList[1..], maxId, a - 1, b);
      assert a * maxId + b == maxId + ((a - 1) * maxId + b);
      assert resList[1..][a - 1] == resList[a];
    }
  }

  /** `fetch_metadata` of the pair returns the empty DataFrame. */
  predicate PairMisses(cfg: Config, server: map<string, string>, cache: Store, idx: int, pair: (int, int))
  {
    FetchSpec(cfg, server, cache, idx, pair.0, pair.1).1 == Ok(None)
  }

  /** Fetching pair by pair, stopping at the first record: the reference
      order of the probe. */
  function ProbePairs(cfg: Config, server: map<string, string>, cache: Store, idx: int, pairs: seq<(int, int)>)
    : (r: (Store, Result<Option<Record>>))
    ensures r.1 == Ok(None) ==> r.0 == cache
    decreases |pairs|
  {
    if |pairs| == 0 then (cache, Ok(None))
    else
      var f := FetchSpec(cfg, server, cache, idx, pairs[0].0, pairs[0].1);
      if f.1 != Ok(None) then f
      else ProbePairs(cfg, server, f.0, idx, pairs[1..])
  }

  lemma {:induction false} ProbePairsAppend(cfg: Config, server: map<string, string>, cache: Store, idx: int,
                                            p: seq<(int, int)>, q: seq<(int, int)>)
    ensures ProbePairs(cfg, server, cache, idx, p + q) ==
      (var a := ProbePairs(cfg, server, cache, idx, p);
       if a.1 != Ok(None) then a else ProbePairs(cfg, server, cache, idx, q))
    decreases |p|
  {
    if |p| > 0 {
      assert (p + q)[0] == p[0] && (p + q)[1..] == p[1..] + q;
      ProbePairsAppend(cfg, server, cache, idx, p[1..], q);
    } else {
      assert p + q == q;
    }
  }

  lemma {:induction false} ProbeIdsIsPairs(cfg: Config, server: map<string, string>, cache: Store, idx: int,
                                           res: int, id: int, maxId: int)
    ensures ProbeIds(cfg, server, cache, idx, res, id, maxId) == ProbePairs(cfg, server, cache, idx, IdRange(res, id, maxId))
    decreases maxId - id
  {
    if id < maxId {
      var r := IdRange(res, id, maxId);
      assert r[0] == (res, id) && r[1..] == IdRange(res, id + 1, maxId);
      ProbeIdsIsPairs(cfg, server, cache, idx, res, id + 1, maxId);
    }
  }

  /** The nested loops fetch the pairs in the order of `Pairs`, stopping at
      the first record. */
  lemma {:induction false} ProbeResIsPairs(cfg: Config, server: map<string, string>, cache: Store, idx: int,
                                           resList: seq<int>, maxId: int)
    ensures ProbeRes(cfg, server, cache, idx, resList, maxId) == ProbePairs(cfg, server, cache, idx, Pairs(resList, maxId))
    decreases |resList|
  {
    if |resList| > 0 {
      ProbeIdsIsPairs(cfg, server, cache, idx, resList[0], 0, maxId);
      ProbePairsAppend(cfg, server, cache, idx, IdRange(resList[0], 0, maxId), Pairs(resList[1..], maxId));
      ProbeResIsPairs(cfg, server, cache, idx, resList[1..], maxId);
    }
  }

  /** A pair that finds nothing leaves the probe to the later pairs. */
  lemma ProbePairsSkip(cfg: Config, server: map<string, string>, cache: Store, idx: int, pairs: seq<(int, int)>)
    requires |pairs| > 0 && PairMisses(cfg, server, cache, idx, pairs[0])
    ensures ProbePairs(cfg, server, cache, idx, pairs) == ProbePairs(cfg, server, cache, idx, pairs[1..])
  {
  }

  /** Pairs that find nothing before a pair that finds nothing. */
  lemma MissesBefore(cfg: Config, server: map<string, string>, cache: Store, idx: int, pairs: seq<(int, int)>, k: int)
    requires 0 <= k < |pairs| && PairMisses(cfg, server, cache, idx, pairs[0])
    requires forall j :: 0 <= j < k ==> PairMisses(cfg, server, cache, idx, pairs[1..][j])
    ensures forall j :: 0 <= j < k + 1 ==> PairMisses(cfg, server, cache, idx, pairs[j])
  {
    forall j | 0 <= j < k + 1 ensures PairMisses(cfg, server, cache, idx, pairs[j]) {
      if j > 0 { assert pairs[j] == pairs[1..][j - 1]; }
    }
  }

  /** A record the probe finds is what `fetch_metadata` gives, on the cache
      the probe started from, for one of the pairs, every earlier pair
      finding nothing. */
  lemma {:induction false} ProbePairsHit(cfg: Config, server: map<string, string>, cache: Store, idx: int,
                                         pairs: seq<(int, int)>)
    requires ProbePairs(cfg, server, cache, idx, pairs).1 != Ok(None)
    ensures exists k ::
      && 0 <= k < |pairs|
      && ProbePairs(cfg, server, cache, idx, pairs) == FetchSpec(cfg, server, cache, idx, pairs[k].0, pairs[k].1)
      && forall j :: 0 <= j < k ==> PairMisses(cfg, server, cache, idx, pairs[j])
    decreases |pairs|
  {
    if PairMisses(cfg, server, cache, idx, pairs[0]) {
      var rest := pairs[1..];
      ProbePairsSkip(cfg, server, cache, idx, pairs);
      ProbePairsHit(cfg, server, cache, idx, rest);
      var k :| 0 <= k < |rest|
        && ProbePairs(cfg, server, cache, idx, rest) == FetchSpec(cfg, server, cache, idx, rest[k].0, rest[k].1)
        && forall j :: 0 <= j < k ==> PairMisses(cfg, server, cache, idx, rest[j]);
      MissesBefore(cfg, server, cache, idx, pairs, k);
      assert pairs[k + 1] == rest[k];
    } else {
      assert ProbePairs(cfg, server, cache, idx, pairs) == FetchSpec(cfg, server, cache, idx, pairs[0].0, pairs[0].1);
    }
  }

  /** A probe that finds nothing found nothing at any pair. */
  lemma {:induction false} ProbePairsMiss(cfg: Config, server: map<string, string>, cache: Store, idx: int,
                                          pairs: seq<(int, int)>)
    requires ProbePairs(cfg, server, cache, idx, pairs).1 == Ok(None)
    ensures forall j :: 0 <= j < |pairs| ==> PairMisses(cfg, server, cache, idx, pairs[j])
    decreases |pairs|
  {
    if |pairs| > 0 {
      assert PairMisses(cfg, server, cache, idx, pairs[0]);
      ProbePairsSkip(cfg, server, cache, idx, pairs);
      ProbePairsMiss(cfg, server, cache, idx, pairs[1..]);
      MissesBefore(cfg, server, cache, idx, pairs, |pairs| - 1);
    }
  }

  // -------------------------------------------------------- one index, three tiers

  /** The record of one index: the cache when caching, then the table built
      so far when it is not empty, then the server. */
  function ResolveSpec(cfg: Config, server: map<string, string>, cache: Store, sims: Table, idx: int,
                       resList: seq<int>, maxId: int)
    : (r: (Store, Result<Option<Record>>))
    ensures Preserves(cache, r.0) && (Listed(cache) ==> Listed(r.0))
    ensures r.1 == Ok(None) ==> r.0 == cache
  {
    var c := if cfg.useCache then FromCacheSpec(cfg, cache, idx) else Ok(None);
    if c != Ok(None) then (cache, c)
    else
      var t := if |sims| > 0 then ScanRows(sims, Simtags(idx), idx, 0, None) else Ok(None);
      if t != Ok(None) then (cache, t)
      else ProbeRes(cfg, server, cache, idx, resList, maxId)
  }

  /** A record of the cache tier decides the index whatever the table and
      the server hold, and nothing is written. */
  lemma ResolveCacheFirst(cfg: Config, server1: map<string, string>, server2: map<string, string>, cache: Store,
                          sims1: Table, sims2: Table, idx: int, resList: seq<int>, maxId: int)
    requires cfg.useCache && FromCacheSpec(cfg, cache, idx).Ok? && FromCacheSpec(cfg, cache, idx).value.Some?
    ensures ResolveSpec(cfg, server1, cache, sims1, idx, resList, maxId) == (cache, FromCacheSpec(cfg, cache, idx))
    ensures ResolveSpec(cfg, server2, cache, sims2, idx, resList, maxId) == (cache, FromCacheSpec(cfg, cache, idx))
  {
  }

  /** After a cache miss, a row of the table decides the index whatever the
      server holds, and nothing is written. */
  lemma ResolveTableBeforeServer(cfg: Config, server1: map<string, string>, server2: map<string, string>,
                                 cache: Store, sims: Table, idx: int, resList: seq<int>, maxId: int)
    requires !cfg.useCache || FromCacheSpec(cfg, cache, idx) == Ok(None)
    requires |sims| > 0 && ScanRows(sims, Simtags(idx), idx, 0, None).Ok?
    requires ScanRows(sims, Simtags(idx), idx, 0, None).value.Some?
    ensures ResolveSpec(cfg, server1, cache, sims, idx, resList, maxId) == (cache, ScanRows(sims, Simtags(idx), idx, 0, None))
    ensures ResolveSpec(cfg, server2, cache, sims, idx, resList, maxId) == (cache, ScanRows(sims, Simtags(idx), idx, 0, None))
  {
  }

  /** The record names a simulation of index `idx`: its name holds one of
      the index's tags. */
  ghost predicate NamedFor(rec: Record, idx: int)
  {
    HasName(rec) && AnyContains(rec["simulation_name"].text, Simtags(idx))
  }

  lemma CacheHitNamed(cfg: Config, cache: Store, idx: int)
    requires FromCacheSpec(cfg, cache, idx).Ok? && FromCacheSpec(cfg, cache, idx).value.Some?
    ensures NamedFor(FromCacheSpec(cfg, cache, idx).value.value, idx)
  {
    var tags := Simtags(idx);
    var rec := FromCacheSpec(cfg, cache, idx).value.value;
    FromCacheHit(cfg, cache, idx, tags);
    var k, name :| 0 <= k < |tags| && tags[k] <= name && CacheHit(cfg, cache, idx, name, rec);
    SimnameKeepsPrefix(tags[k], name);
    assert rec["simulation_name"] == Text(SimnameFromMetadataFilename(name));
    assert Contains(SimnameFromMetadataFilename(name), tags[k]);
  }

  lemma {:induction false} TableHitNamed(rows: Table, tags: seq<string>, idx: int, i: nat, acc: Option<Record>)
    requires acc.Some? ==> RowMatches(acc.value, tags)
    requires ScanRows(rows, tags, idx, i, acc).Ok? && ScanRows(rows, tags, idx, i, acc).value.Some?
    ensures RowMatches(ScanRows(rows, tags, idx, i, acc).value.value, tags)
    decreases |rows|
  {
    if |rows| > 0 {
      var acc' := if RowMatches(rows[0], tags) then Some(rows[0]) else acc;
      TableHitNamed(rows[1..], tags, idx, i + 1, acc');
    }
  }

  lemma FetchNamedFor(cfg: Config, server: map<string, string>, cache: Store, idx: int, res: int, id: int)
    requires FetchSpec(cfg, server, cache, idx, res, id).1.Ok?
    requires FetchSpec(cfg, server, cache, idx, res, id).1.value.Some?
    ensures NamedFor(FetchSpec(cfg, server, cache, idx, res, id).1.value.value, idx)
  {
    var rec := FetchSpec(cfg, server, cache, idx, res, id).1.value.value;
    FetchHitNamed(cfg, server, cache, idx, res, id);
    var k :| 0 <= k < 2 && rec["simulation_name"] == Text(Simnames(idx, res, id)[k])
      && rec["metadata_location"] == Text(Under(cfg.metadataDir, MetadataFilenames(idx, res, id)[k]));
    SimnameNamedFor(rec, idx, res, id, k);
  }

  /** A record whose simulation name is a candidate name of the index is
      named for that index. */
  lemma SimnameNamedFor(rec: Record, idx: int, res: int, id: int, k: int)
    requires 0 <= k < 2 && "simulation_name" in rec && rec["simulation_name"] == Text(Simnames(idx, res, id)[k])
    ensures NamedFor(rec, idx)
  {
    TagsArePrefixes(idx, res, id);
    assert Contains(Simnames(idx, res, id)[k], Simtags(idx)[k]);
  }

  lemma ServerHitNamed(cfg: Config, server: map<string, string>, cache: Store, idx: int, resList: seq<int>, maxId: int)
    requires ProbeRes(cfg, server, cache, idx, resList, maxId).1.Ok?
    requires ProbeRes(cfg, server, cache, idx, resList, maxId).1.value.Some?
    ensures NamedFor(ProbeRes(cfg, server, cache, idx, resList, maxId).1.value.value, idx)
  {
    var pairs := Pairs(resList, maxId);
    ProbeResIsPairs(cfg, server, cache, idx, resList, maxId);
    ProbePairsHit(cfg, server, cache, idx, pairs);
    var j :| 0 <= j < |pairs|
      && ProbePairs(cfg, server, cache, idx, pairs) == FetchSpec(cfg, server, cache, idx, pairs[j].0, pairs[j].1);
    FetchNamedFor(cfg, server, cache, idx, pairs[j].0, pairs[j].1);
  }

  /** Whichever tier finds it, the record of index `idx` names a
      simulation of that index. */
  lemma ResolveHitNamed(cfg: Config, server: map<string, string>, cache: Store, sims: Table, idx: int,
                        resList: seq<int>, maxId: int)
    requires ResolveSpec(cfg, server, cache, sims, idx, resList, maxId).1.Ok?
    requires ResolveSpec(cfg, server, cache, sims, idx, resList, maxId).1.value.Some?
    ensures NamedFor(ResolveSpec(cfg, server, cache, sims, idx, resList, maxId).1.value.value, idx)
  {
    var c := if cfg.useCache then FromCacheSpec(cfg, cache, idx) else Ok(None);
    if c != Ok(None) {
      CacheHitNamed(cfg, cache, idx);
    } else {
      var t := if |sims| > 0 then ScanRows(sims, Simtags(idx), idx, 0, None) else Ok(None);
      if t != Ok(None) {
        TableHitNamed(sims, Simtags(idx), idx, 0, None);
      } else {
        ServerHitNamed(cfg, server, cache, idx, resList, maxId);
      }
    }
  }

  // ------------------------------------------------ fetch_metadata_for_catalog

  /** What the crawl carries from index to index: the cache, the local
      table `sims`, `self.metadata`, and `metadata.csv` (None while missing
      or empty). */
  datatype Crawl = Crawl(cache: Store, sims: Table, metadata: Table, stored: Option<Table>)

  /** One index of the crawl: the found record is appended, the table
      becomes `self.metadata` and, when caching, is written out. A failure
      keeps what the index wrote to the cache. */
  function CrawlStep(cfg: Config, server: map<string, string>, st: Crawl, idx: int, resList: seq<int>, maxId: int)
    : (r: (Crawl, Option<Error>))
    ensures Preserves(st.cache, r.0.cache) && (Listed(st.cache) ==> Listed(r.0.cache))
    ensures r.1.None? ==> r.0.metadata == r.0.sims && (cfg.useCache ==> r.0.stored == Some(r.0.sims))
    ensures r.1.None? ==> r.0.sims == st.sims || (|r.0.sims| == |st.sims| + 1 && st.sims <= r.0.sims
                                                  && NamedFor(r.0.sims[|st.sims|], idx))
    ensures var f := ResolveSpec(cfg, server, st.cache, st.sims, idx, resList, maxId);
      && r.0.cache == f.0
      && (r.1.Some? <==> f.1.Err?)
      && (f.1 == Ok(None) ==> r.0.sims == st.sims)
      && (f.1.Ok? && f.1.value.Some? ==> r.0.sims == st.sims + [f.1.value.value])
  {
    var f := ResolveSpec(cfg, server, st.cache, st.sims, idx, resList, maxId);
    if f.1.Err? then (st.(cache := f.0), Some(f.1.error))
    else
      var sims := if f.1.value.Some? then
                    ResolveHitNamed(cfg, server, st.cache, st.sims, idx, resList, maxId);
                    st.sims + [f.1.value.value]
                  else st.sims;
      (Crawl(f.0, sims, sims, if cfg.useCache then Some(sims) else st.stored), None)
  }

  /** The crawl from index `idx` to `n`, stopping at the first failure. It
      never replaces a non-empty cache file. */
  function CrawlFrom(cfg: Config, server: map<string, string>, st: Crawl, idx: int, n: int,
                     resList: seq<int>, maxId: int)
    : (r: (Crawl, Option<Error>))
    ensures Preserves(st.cache, r.0.cache) && (Listed(st.cache) ==> Listed(r.0.cache))
    decreases n + 1 - idx
  {
    if idx > n then (st, None)
    else
      var step := CrawlStep(cfg, server, st, idx, resList, maxId);
      if step.1.Some? then step
      else
        var r := CrawlFrom(cfg, server, step.0, idx + 1, n, resList, maxId);
        PreservesTrans(st.cache, step.0.cache, r.0.cache);
        r
  }

  /** The records the three tiers return along a crawl from index `idx` to
      `n`, in index order, each tier seeing the cache and the table left by
      the indices before; nothing from the first failure on. */
  function FoundFrom(cfg: Config, server: map<string, string>, cache: Store, sims: Table, idx: int, n: int,
                     resList: seq<int>, maxId: int): (found: seq<Record>)
    ensures |found| <= if idx <= n then n + 1 - idx else 0
    decreases n + 1 - idx
  {
    if idx > n then []
    else
      var f := ResolveSpec(cfg, server, cache, sims, idx, resList, maxId);
      if f.1.Err? then []
      else
        var here := if f.1.value.Some? then [f.1.value.value] else [];
        here + FoundFrom(cfg, server, f.0, sims + here, idx + 1, n, resList, maxId)
  }

  /** A successful crawl appends exactly the records the tiers found, in
      index order, and nothing else. */
  lemma {:induction false} CrawlAppendsFound(cfg: Config, server: map<string, string>, st: Crawl, idx: int, n: int,
                                             resList: seq<int>, maxId: int)
    ensures var r := CrawlFrom(cfg, server, st, idx, n, resList, maxId);
      r.1.None? ==> r.0.sims == st.sims + FoundFrom(cfg, server, st.cache, st.sims, idx, n, resList, maxId)
    decreases n + 1 - idx
  {
    if idx <= n {
      var f := ResolveSpec(cfg, server, st.cache, st.sims, idx, resList, maxId);
      var step := CrawlStep(cfg, server, st, idx, resList, maxId);
      if step.1.None? {
        var here := if f.1.value.Some? then [f.1.value.value] else [];
        assert step.0.cache == f.0 && step.0.sims == st.sims + here;
        CrawlAppendsFound(cfg, server, step.0, idx + 1, n, resList, maxId);
        var rest := FoundFrom(cfg, server, f.0, st.sims + here, idx + 1, n, resList, maxId);
        assert FoundFrom(cfg, server, st.cache, st.sims, idx, n, resList, maxId) == here + rest;
        AppendAssoc(st.sims, here, rest);
      }
    }
  }

  /** Every record from position `from` on names a simulation of an index
      in `lo..hi`. */
  ghost predicate NamedWithin(sims: Table, from: int, lo: int, hi: int)
  {
    forall j :: 0 <= from <= j < |sims| ==> NamedBetween(sims[j], lo, hi)
  }

  /** The record names a simulation of some index in `lo..hi`. */
  ghost predicate NamedBetween(rec: Record, lo: int, hi: int)
  {
    exists i :: lo <= i <= hi && NamedFor(rec, i)
  }

  /** On success the table the crawl starts from is a prefix of the one it
      ends with, which has at most one more record per index; after at
      least one index it is also `self.metadata` and, when caching, what
      `metadata.csv` holds. */
  lemma {:induction false} CrawlGrows(cfg: Config, server: map<string, string>, st: Crawl, idx: int, n: int,
                                      resList: seq<int>, maxId: int)
    ensures var r := CrawlFrom(cfg, server, st, idx, n, resList, maxId);
      r.1.None? ==>
        && st.sims <= r.0.sims
        && |r.0.sims| <= |st.sims| + (if idx <= n then n + 1 - idx else 0)
    ensures var r := CrawlFrom(cfg, server, st, idx, n, resList, maxId);
      r.1.None? && idx <= n ==> r.0.metadata == r.0.sims && (cfg.useCache ==> r.0.stored == Some(r.0.sims))
    decreases n + 1 - idx
  {
    if idx <= n {
      var step := CrawlStep(cfg, server, st, idx, resList, maxId);
      if step.1.None? {
        CrawlGrows(cfg, server, step.0, idx + 1, n, resList, maxId);
      }
    }
  }

  lemma NamedWithinExtend(a: Table, b: Table, c: Table, idx: int, n: int)
    requires idx <= n && b <= c
    requires b == a || (|b| == |a| + 1 && a <= b && NamedFor(b[|a|], idx))
    requires NamedWithin(c, |b|, idx + 1, n)
    ensures NamedWithin(c, |a|, idx, n)
  {
    forall j | 0 <= |a| <= j < |c| ensures NamedBetween(c[j], idx, n) {
      if j < |b| {
        assert c[j] == b[j] && j == |a|;
        assert idx <= idx <= n && NamedFor(c[j], idx);
      } else {
        assert 0 <= |b| <= j < |c|;
        assert NamedBetween(c[j], idx + 1, n);
        var i :| idx + 1 <= i <= n && NamedFor(c[j], i);
        assert idx <= i <= n;
      }
    }
  }

  /** Every record the crawl appends names a simulation of an index it
      visited. */
  lemma {:induction false} CrawlNamed(cfg: Config, server: map<string, string>, st: Crawl, idx: int, n: int,
                                      resList: seq<int>, maxId: int)
    ensures var r := CrawlFrom(cfg, server, st, idx, n, resList, maxId);
      r.1.None? ==> NamedWithin(r.0.sims, |st.sims|, idx, n)
    decreases n + 1 - idx
  {
    if idx <= n {
      var step := CrawlStep(cfg, server, st, idx, resList, maxId);
      if step.1.None? {
        var st' := step.0;
        CrawlNamed(cfg, server, st', idx + 1, n, resList, maxId);
        CrawlGrows(cfg, server, st', idx + 1, n, resList, maxId);
        var r := CrawlFrom(cfg, server, st', idx + 1, n, resList, maxId);
        if r.1.None? {
          NamedWithinExtend(st.sims, st'.sims, r.0.sims, idx, n);
        }
      }
    }
  }

  /** The outcome of `fetch_metadata_for_catalog`: the new state and the
      returned table. */
  datatype Outcome = Outcome(cache: Store, stored: Option<Table>, metadata: Table, numOfSims: int,
                             result: Result<Table>)

  /** The resolutions the crawl tries: the argument, or the catalog's
      default when it is empty. */
  function ResList(cfg: Config, possibleRes: seq<int>): (r: seq<int>)
    ensures |possibleRes| > 0 ==> r == possibleRes
  {
    if |possibleRes| == 0 then cfg.possibleRes else possibleRes
  }

  /** The id bound the crawl uses: the argument, or the catalog's default
      when it is not positive. */
  function MaxId(cfg: Config, maxIdInName: int): (r: int)
    ensures maxIdInName > 0 ==> r == maxIdInName
  {
    if maxIdInName <= 0 then cfg.maxIdVal else maxIdInName
  }

  /** `fetch_metadata_for_catalog(n, possible_res, max_id_in_name)` from
      the given state. */
  function CatalogSpec(cfg: Config, server: map<string, string>, cache: Store, stored: Option<Table>,
                       metadata: Table, numOfSims: int, n: int, possibleRes: seq<int>, maxIdInName: int)
    : (r: Outcome)
    ensures Preserves(cache, r.cache) && (Listed(cache) ==> Listed(r.cache))
  {
    var resList := ResList(cfg, possibleRes);
    var maxId := MaxId(cfg, maxIdInName);
    if cfg.useCache && stored.Some? && |stored.value| >= n - 1 then
      Outcome(cache, stored, stored.value, numOfSims, Ok(PyPrefix(stored.value, n - 1)))
    else
      var start := if cfg.useCache && stored.Some? then Crawl(cache, stored.value, stored.value, stored)
                   else Crawl(cache, [], metadata, stored);
      var r := CrawlFrom(cfg, server, start, 1, n, resList, maxId);
      if r.1.Some? then Outcome(r.0.cache, r.0.stored, r.0.metadata, numOfSims, Err(r.1.value))
      else Outcome(r.0.cache, r.0.stored, r.0.metadata, |r.0.sims|, Ok(r.0.metadata))
  }

  /** A stored table long enough answers without crawling: its first
      `n - 1` records, and nothing is fetched or written. */
  lemma CatalogEarlyReturn(cfg: Config, server: map<string, string>, cache: Store, t: Table,
                           metadata: Table, numOfSims: int, n: int, possibleRes: seq<int>, maxIdInName: int)
    requires cfg.useCache && |t| >= n - 1
    ensures var r := CatalogSpec(cfg, server, cache, Some(t), metadata, numOfSims, n, possibleRes, maxIdInName);
      && r.cache == cache && r.stored == Some(t) && r.metadata == t && r.numOfSims == numOfSims
      && r.result.Ok? && r.result.value <= t
      && |r.result.value| == (if n >= 1 then n - 1 else if |t| + n - 1 >= 0 then |t| + n - 1 else 0)
  {
  }

  /** With no index to crawl (`n <= 0`) and no early return, the loop never
      runs: the old `self.metadata` is returned unchanged while `num_of_sims`
      becomes 0, so the count disagrees with the returned table whenever that
      table is not empty. Nothing is fetched or written. */
  lemma CatalogNoIndices(cfg: Config, server: map<string, string>, cache: Store, stored: Option<Table>,
                         metadata: Table, numOfSims: int, n: int, possibleRes: seq<int>, maxIdInName: int)
    requires n <= 0
    requires !(cfg.useCache && stored.Some? && |stored.value| >= n - 1)
    ensures var r := CatalogSpec(cfg, server, cache, stored, metadata, numOfSims, n, possibleRes, maxIdInName);
      && !(cfg.useCache && stored.Some?)
      && r.result == Ok(metadata)
      && r.numOfSims == 0
      && (r.numOfSims == |r.result.value| <==> metadata == [])
      && r.cache == cache && r.stored == stored && r.metadata == metadata
  {
  }

  /** A full crawl that succeeds returns the table it built: the stored
      table it started from (or nothing) followed by exactly the records
      the tiers found, in index order, at most one per index from 1 to `n`
      and each naming a simulation of one of them. */
  lemma CatalogCrawlResult(cfg: Config, server: map<string, string>, cache: Store, stored: Option<Table>,
                           metadata: Table, numOfSims: int, n: int, possibleRes: seq<int>, maxIdInName: int)
    requires n >= 1
    requires !(cfg.useCache && stored.Some? && |stored.value| >= n - 1)
    requires CatalogSpec(cfg, server, cache, stored, metadata, numOfSims, n, possibleRes, maxIdInName).result.Ok?
    ensures var r := CatalogSpec(cfg, server, cache, stored, metadata, numOfSims, n, possibleRes, maxIdInName);
      var start := if cfg.useCache && stored.Some? then stored.value else [];
      && r.result.value == r.metadata
      && r.numOfSims == |r.metadata|
      && start <= r.metadata
      && |r.metadata| <= |start| + n
      && NamedWithin(r.metadata, |start|, 1, n)
      && (cfg.useCache ==> r.stored == Some(r.metadata))
      && r.metadata == start + FoundFrom(cfg, server, cache, start, 1, n, ResList(cfg, possibleRes), MaxId(cfg, maxIdInName))
  {
    var resList := ResList(cfg, possibleRes);
    var maxId := MaxId(cfg, maxIdInName);
    var start := if cfg.useCache && stored.Some? then Crawl(cache, stored.value, stored.value, stored)
                 else Crawl(cache, [], metadata, stored);
    CrawlGrows(cfg, server, start, 1, n, resList, maxId);
    CrawlNamed(cfg, server, start, 1, n, resList, maxId);
    CrawlAppendsFound(cfg, server, start, 1, n, resList, maxId);
  }

  // ------------------------------------------------------------- the object

  /** The constructor's default resolutions and largest id. */
  const DefaultResolutions: seq<int> := [100, 120, 88, 118, 130, 140, 144, 160, 200]
  const DefaultMaxIdVal: int := 6

  /** The settings the constructor derives from its arguments. */
  function MakeConfig(catalogName: string, catalogUrl: string, cacheDir: string, useCache: bool,
                      possibleResolutions: seq<int>, maxIdVal: int): Config
  {
    Config(useCache,
           catalogUrl + "/Metadata/",
           cacheDir + "/" + catalogName + "/metadata",
           catalogUrl + "/Data/",
           cacheDir + "/" + catalogName + "/waveform_data",
           possibleResolutions, maxIdVal)
  }

  /** `RITCatalog`: its settings, the server it reads from, and the state
      the crawl changes: the metadata directory, `metadata.csv`,
      `self.metadata` and `self.num_of_sims`. */
  class RITCatalog {
    const config: Config
    const server: map<string, string>
    var cache: Store
    var stored: Option<Table>
    var metadata: Table
    var numOfSims: int

    /** The catalog over a server and a disk holding the metadata directory
        `disk` and the table file `csv`. */
    constructor(catalogName: string, catalogUrl: string, cacheDir: string, useCache: bool,
                possibleResolutions: seq<int>, maxIdVal: int,
                server: map<string, string>, disk: Store, csv: Option<Table>)
      requires Listed(disk)
      ensures config == MakeConfig(catalogName, catalogUrl, cacheDir, useCache, possibleResolutions, maxIdVal)
      ensures this.server == server && cache == disk && stored == csv
      ensures metadata == [] && numOfSims == 0
    {
      config := MakeConfig(catalogName, catalogUrl, cacheDir, useCache, possibleResolutions, maxIdVal);
      this.server := server;
      cache := disk;
      stored := csv;
      metadata := [];
      numOfSims := 0;
    }

    /** One pass of `fetch_metadata`'s loop: the cache file, then the
        server when the dictionary is still empty. */
    method TryCandidate(name: string) returns (r: Result<(seq<string>, Fields)>)
      ensures r == TryName(config, server, cache, name)
    {
      var txt: seq<string> := [];
      var dict: Fields := map[];
      var link := Under(config.metadataUrl, name);
      if config.useCache && NonEmpty(cache, name) {
        var p := ParseMetadataTxt(cache.files[name]);
        if p.Err? {
          return Err(p.error);
        }
        txt, dict := p.value.0, p.value.1;
      }
      if |dict| == 0 && link in server {
        r := ParseMetadataTxt(ServerLines(server, link));
        return;
      }
      return Ok((txt, dict));
    }

    /** `fetch_metadata`'s loop over the candidate names, left at the
        first non-empty dictionary. */
    method SearchCandidates(names: seq<string>) returns (r: Result<(Option<string>, seq<string>, Fields)>)
      ensures r == SearchNames(config, server, cache, names)
    {
      for i := 0 to |names|
        invariant SearchNames(config, server, cache, names) == SearchNames(config, server, cache, names[i..])
      {
        assert names[i..][1..] == names[i + 1..];
        var t := TryCandidate(names[i]);
        if t.Err? {
          return Err(t.error);
        }
        if |t.value.1| > 0 {
          return Ok((Some(names[i]), t.value.0, t.value.1));
        }
      }
      return Ok((None, [], map[]));
    }

    /** `fetch_metadata(idx, res, id_val)`. */
    method FetchMetadata(idx: int, res: int, id: int) returns (r: Result<Option<Record>>)
      modifies this`cache
      ensures (cache, r) == FetchSpec(config, server, old(cache), idx, res, id)
    {
      var s := SearchCandidates(MetadataFilenames(idx, res, id));
      if s.Err? {
        return Err(s.error);
      }
      if s.value.0.None? {
        return Ok(None);
      }
      var fileName := s.value.0.value;
      if config.useCache && !NonEmpty(cache, fileName) {
        cache := Write(cache, fileName, ReadBack(s.value.1));
      }
      var rec := Derived(config, fileName, s.value.2);
      if rec.Err? {
        return Err(rec.error);
      }
      return Ok(Some(rec.value));
    }

    /** `fetch_metadata_from_cache(idx)`. */
    method FetchMetadataFromCache(idx: int) returns (r: Result<Option<Record>>)
      ensures r == FromCacheSpec(config, cache, idx)
    {
      var tags := Simtags(idx);
      for k := 0 to |tags|
        invariant FromCacheSpec(config, cache, idx) == FromCacheFrom(config, cache, idx, tags[k..])
      {
        assert tags[k..][1..] == tags[k + 1..];
        var m := Glob(cache, tags[k]);
        if m.None? {
          continue;
        }
        var filePath := m.value;
        var wf := WaveformFilenameFromCache(config, cache, idx);
        if wf.Err? {
          return Err(wf.error);
        }
        var parsed := ParseMetadataTxt(cache.files[filePath]);
        if parsed.Err? {
          return Err(parsed.error);
        }
        if |parsed.value.1| > 0 {
          var rec := CacheRecord(config, filePath, parsed.value.1, wf.value);
          if rec.Err? {
            return Err(rec.error);
          }
          return Ok(Some(rec.value));
        }
      }
      return Ok(None);
    }

    /** The look through the table built so far for the index's tags. */
    method ScanTable(sims: Table, idx: int) returns (r: Result<Option<Record>>)
      ensures r == ScanRows(sims, Simtags(idx), idx, 0, None)
    {
      var tags := Simtags(idx);
      var simData: Option<Record> := None;
      for j := 0 to |sims|
        invariant ScanRows(sims, tags, idx, 0, None) == ScanRows(sims[j..], tags, idx, j, simData)
      {
        assert sims[j..][1..] == sims[j + 1..];
        var row := sims[j];
        if !HasName(row) {
          return Err(NoSimulationName(j));
        }
        var name := row["simulation_name"].text;
        var k := 0;
        while k < |tags|
          invariant 0 <= k <= |tags|
          invariant forall m :: 0 <= m < k ==> !Contains(name, tags[m])
        {
          if Contains(name, tags[k]) {
            var info := SimInfoFromMetadataFilename(name);
            if info.Err? {
              return Err(info.error);
            }
            if info.value.0 != idx {
              return Err(IndexMismatch(info.value.0, idx));
            }
            simData := Some(row);
            break;
          }
          k := k + 1;
        }
      }
      return Ok(simData);
    }

    /** The inner loop of the server tier: the ids of one resolution. */
    method ProbeIdsOf(idx: int, res: int, maxId: int) returns (r: Result<Option<Record>>)
      modifies this`cache
      ensures (cache, r) == ProbeIds(config, server, old(cache), idx, res, 0, maxId)
    {
      var id := 0;
      while id < maxId
        invariant ProbeIds(config, server, old(cache), idx, res, 0, maxId)
                  == ProbeIds(config, server, cache, idx, res, id, maxId)
        decreases maxId - id
      {
        r := FetchMetadata(idx, res, id);
        if r != Ok(None) {
          return;
        }
        id := id + 1;
      }
      return Ok(None);
    }

    /** The server tier: resolutions outside, ids inside. */
    method ProbeNetwork(idx: int, resList: seq<int>, maxId: int) returns (r: Result<Option<Record>>)
      modifies this`cache
      ensures (cache, r) == ProbeRes(config, server, old(cache), idx, resList, maxId)
    {
      for i := 0 to |resList|
        invariant ProbeRes(config, server, old(cache), idx, resList, maxId)
                  == ProbeRes(config, server, cache, idx, resList[i..], maxId)
      {
        assert resList[i..][1..] == resList[i + 1..];
        r := ProbeIdsOf(idx, resList[i], maxId);
        if r != Ok(None) {
          return;
        }
      }
      return Ok(None);
    }

    /** One index of the crawl, the three tiers in turn. */
    method HuntIndex(sims: Table, idx: int, resList: seq<int>, maxId: int) returns (r: Result<Option<Record>>)
      modifies this`cache
      ensures (cache, r) == ResolveSpec(config, server, old(cache), sims, idx, resList, maxId)
    {
      var found := false;
      var simData: Option<Record> := None;
      if config.useCache {
        var c := FetchMetadataFromCache(idx);
        if c.Err? {
          return c;
        }
        if c.value.Some? {
          found, simData := true, c.value;
        }
      }
      if |sims| > 0 && !found {
        var t := ScanTable(sims, idx);
        if t.Err? {
          return t;
        }
        if t.value.Some? {
          found, simData := true, t.value;
        }
      }
      if !found {
        r := ProbeNetwork(idx, resList, maxId);
        return;
      }
      return Ok(simData);
    }

    /** The crawl's loop over the indices 1 to `n`, from the table `start`:
        the table it ends with, and the error that stopped it. */
    method CrawlIndices(start: Table, n: int, resList: seq<int>, maxId: int) returns (sims: Table, err: Option<Error>)
      modifies this`cache, this`stored, this`metadata
      ensures (Crawl(cache, sims, metadata, stored), err)
              == CrawlFrom(config, server, Crawl(old(cache), start, old(metadata), old(stored)), 1, n, resList, maxId)
    {
      sims := start;
      var idx := 1;
      while idx <= n
        invariant CrawlFrom(config, server, Crawl(old(cache), start, old(metadata), old(stored)), 1, n, resList, maxId)
                  == CrawlFrom(config, server, Crawl(cache, sims, metadata, stored), idx, n, resList, maxId)
        decreases n + 1 - idx
      {
        var simData := HuntIndex(sims, idx, resList, maxId);
        if simData.Err? {
          return sims, Some(simData.error);
        }
        if simData.value.Some? {
          sims := sims + [simData.value.value];
        }
        metadata := sims;
        if config.useCache {
          stored := Some(sims);
        }
        idx := idx + 1;
      }
      return sims, None;
    }

    /** `fetch_metadata_for_catalog(num_sims_to_crawl, possible_res,
        max_id_in_name)`. */
    method FetchMetadataForCatalog(n: int, possibleRes: seq<int>, maxIdInName: int) returns (r: Result<Table>)
      modifies this`cache, this`stored, this`metadata, this`numOfSims
      ensures Outcome(cache, stored, metadata, numOfSims, r) ==
        CatalogSpec(config, server, old(cache), old(stored), old(metadata), old(numOfSims), n, possibleRes, maxIdInName)
    {
      var resList := ResList(config, possibleRes);
      var maxId := MaxId(config, maxIdInName);
      var start: Table := [];
      if config.useCache && stored.Some? {
        metadata := stored.value;
        if |metadata| >= n - 1 {
          return Ok(PyPrefix(metadata, n - 1));
        }
        start := metadata;
      }
      var sims, err := CrawlIndices(start, n, resList, maxId);
      if err.Some? {
        return Err(err.value);
      }
      numOfSims := |sims|;
      return Ok(metadata);
    }
  }
}
