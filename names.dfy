/** The name deriver of the RIT catalog: the string functions that turn a
    simulation index, resolution and identifier into metadata file names,
    simulation names, simulation tags and waveform file names, and the ones
    that take those names apart again. The templates are the catalog's
    defaults:
      quasicircular  RIT:BBH:{:04d}-n{:3d}-id{:d}_Metadata.txt
      eccentric      RIT:eBBH:{:04d}-n{:3d}-ecc_Metadata.txt */
module Names {
  import opened Wrappers
  import opened PyStrings

  // ------------------------------------------------------------ templates

  /** The quasicircular metadata template filled in. */
  function QcMetadataFilename(idx: int, res: int, id: int): string
  {
    "RIT:BBH:" + Format04d(idx) + "-n" + Format3d(res) + "-id" + FormatD(id) + "_Metadata.txt"
  }

  /** The eccentric metadata template filled in. */
  function EccMetadataFilename(idx: int, res: int): string
  {
    "RIT:eBBH:" + Format04d(idx) + "-n" + Format3d(res) + "-ecc_Metadata.txt"
  }

  /** The simulation name a quasicircular metadata file stands for: the
      file name without `_Metadata.txt`. Reference definition for lemmas. */
  function QcSimname(idx: int, res: int, id: int): string
  {
    "RIT:BBH:" + Format04d(idx) + "-n" + Format3d(res) + "-id" + FormatD(id)
  }

  /** The simulation name an eccentric metadata file stands for. */
  function EccSimname(idx: int, res: int): string
  {
    "RIT:eBBH:" + Format04d(idx) + "-n" + Format3d(res) + "-ecc"
  }

  // ------------------------------------------------------------ functions

  /** `filename.split('_Meta')[0]`. */
  function SimnameFromMetadataFilename(filename: string): (r: string)
    ensures r <= filename
    ensures !Contains(r, "_Meta")
    ensures |r| < |filename| ==> "_Meta" <= filename[|r|..]
    decreases |filename|
  {
    if |filename| == 0 || "_Meta" <= filename then ""
    else [filename[0]] + SimnameFromMetadataFilename(filename[1..])
  }

  /** Both candidate metadata file names for one (index, resolution, id),
      quasicircular first: each starts with the simulation tag of its
      family. */
  function MetadataFilenames(idx: int, res: int, id: int): (r: seq<string>)
    ensures |r| == 2 && Simtags(idx)[0] <= r[0] && Simtags(idx)[1] <= r[1]
  {
    [QcMetadataFilename(idx, res, id), EccMetadataFilename(idx, res)]
  }

  /** The simulation names of the two candidate metadata files: each a
      prefix of its file name, free of `_Meta`. */
  function Simnames(idx: int, res: int, id: int): (r: seq<string>)
    ensures |r| == 2
    ensures forall k :: 0 <= k < 2 ==> r[k] <= MetadataFilenames(idx, res, id)[k] && !Contains(r[k], "_Meta")
  {
    var files := MetadataFilenames(idx, res, id);
    var qc, ecc := SimnameFromMetadataFilename(files[0]), SimnameFromMetadataFilename(files[1]);
    assert qc <= files[0] && !Contains(qc, "_Meta");
    assert ecc <= files[1] && !Contains(ecc, "_Meta");
    [qc, ecc]
  }

  /** Each template up to its first `-`, filled in with the index: the
      prefix every file of that index and family starts with. Neither tag
      holds `_`, so cutting a name at `_Meta` keeps the tag. */
  function Simtags(idx: int): (r: seq<string>)
    ensures |r| == 2 && forall k :: 0 <= k < 2 ==> '_' !in r[k]
  {
    FormatsExclude(idx);
    TagNoUnderscore(Format04d(idx));
    ["RIT:BBH:" + Format04d(idx), "RIT:eBBH:" + Format04d(idx)]
  }

  /** The part after the last `:`, with `int(txt[:4])` and
      `int(txt.split('-')[1][1:])` read from it. Shared by the two
      functions that rebuild a file name from a simulation name. */
  function IndexAndResolution(simName: string): (r: Result<(string, int, int)>)
    ensures r.Err? ==> r.error == NameFormat(simName)
  {
    var colonParts := Split(simName, ':');
    var txt := colonParts[|colonParts| - 1];
    var idx := PyInt(PyPrefix(txt, 4));
    var dashParts := Split(txt, '-');
    if idx.None? || |dashParts| < 2 then Err(NameFormat(simName))
    else
      var res := PyInt(PyDrop(dashParts[1], 1));
      if res.None? then Err(NameFormat(simName))
      else Ok((txt, idx.value, res.value))
  }

  /** `int(txt[-1])`, None where Python raises. */
  function LastCharInt(txt: string): Option<int>
  {
    if |txt| == 0 then None else PyInt([txt[|txt| - 1]])
  }

  /** Rebuilds the metadata file name from a simulation name; the family
      is eccentric exactly when the name contains `eBBH`. */
  function MetadataFilenameFromSimname(simName: string): (r: Result<string>)
    ensures r.Err? ==> r.error == NameFormat(simName)
    ensures r.Ok? && Contains(simName, "eBBH") ==> "RIT:eBBH:" <= r.value
    ensures r.Ok? && !Contains(simName, "eBBH") ==> "RIT:BBH:" <= r.value
  {
    var parsed := IndexAndResolution(simName);
    if parsed.Err? then Err(parsed.error)
    else
      var (txt, idx, res) := parsed.value;
      if !Contains(simName, "eBBH") then
        var id := LastCharInt(txt);
        if id.None? then Err(NameFormat(simName))
        else
          FamilyTags(idx, res, id.value);
          Ok(QcMetadataFilename(idx, res, id.value))
      else
        FamilyTags(idx, res, 0);
        Ok(EccMetadataFilename(idx, res))
  }

  /** Each family's file name starts with its family's `RIT:` tag. */
  lemma FamilyTags(idx: int, res: int, id: int)
    ensures "RIT:BBH:" <= QcMetadataFilename(idx, res, id)
    ensures "RIT:eBBH:" <= EccMetadataFilename(idx, res)
  {
    var f4 := Format04d(idx);
    AppendAssoc("RIT:BBH:", f4, "-n" + Format3d(res) + "-id" + FormatD(id) + "_Metadata.txt");
    AppendAssoc("RIT:eBBH:", f4, "-n" + Format3d(res) + "-ecc_Metadata.txt");
  }

  /** The metadata file name `waveform_filename_from_simname` rebuilds:
      quasicircular when `int(txt[-1])` succeeds, eccentric when it raises. */
  function RebuiltMetadataFilename(txt: string, idx: int, res: int): string
  {
    var id := LastCharInt(txt);
    if id.Some? then QcMetadataFilename(idx, res, id.value) else EccMetadataFilename(idx, res)
  }

  /** The waveform file name reassembled from the `:` pieces of a metadata
      file name and the `-` pieces of its third piece up to the first `_`;
      None where Python indexes past the end of a list. */
  function WaveformFromMetadataFilename(mf: string): Option<string>
  {
    var parts := Split(mf, ':');
    if |parts| < 3 then None
    else
      var dash := Split(Split(parts[2], '_')[0], '-');
      if |dash| < 2 then None
      else Some("ExtrapStrain_" + parts[0] + "-" + parts[1] + "-" + dash[0] + "-" + dash[1] + ".h5")
  }

  /** Rebuilds the metadata file name, then the waveform file name from it. */
  function WaveformFilenameFromSimname(simName: string): (r: Result<string>)
    ensures r.Err? ==> r.error == NameFormat(simName)
  {
    var parsed := IndexAndResolution(simName);
    if parsed.Err? then Err(parsed.error)
    else
      var (txt, idx, res) := parsed.value;
      var w := WaveformFromMetadataFilename(RebuiltMetadataFilename(txt, idx, res));
      if w.None? then Err(NameFormat(simName)) else Ok(w.value)
  }

  /** `(int(f.split('-')[0][-4:]), int(f.split('-')[1][1:]),
      int(f.split('-')[2].split('_')[0][2:]))`. */
  function SimInfoFromMetadataFilename(fileName: string): (r: Result<(int, int, int)>)
    ensures r.Err? ==> r.error == NameFormat(fileName)
  {
    var pieces := Split(fileName, '-');
    var idx := PyInt(PyLastN(pieces[0], 4));
    if idx.None? || |pieces| < 2 then Err(NameFormat(fileName))
    else
      var res := PyInt(PyDrop(pieces[1], 1));
      if res.None? || |pieces| < 3 then Err(NameFormat(fileName))
      else
        var id := PyInt(PyDrop(Split(pieces[2], '_')[0], 2));
        if id.None? then Err(NameFormat(fileName))
        else Ok((idx.value, res.value, id.value))
  }

  // --------------------------------------------------------------- lemmas

  /** A name without the marker is its own simulation name. */
  lemma {:induction false} SimnameOfUnmarked(s: string)
    requires !Contains(s, "_Meta")
    ensures SimnameFromMetadataFilename(s) == s
    decreases |s|
  {
    if |s| > 0 {
      SimnameOfUnmarked(s[1..]);
      assert [s[0]] + s[1..] == s;
    }
  }

  /** Taking the simulation name twice changes nothing. */
  lemma SimnameIdempotent(filename: string)
    ensures SimnameFromMetadataFilename(SimnameFromMetadataFilename(filename))
         == SimnameFromMetadataFilename(filename)
  {
    SimnameOfUnmarked(SimnameFromMetadataFilename(filename));
  }

  /** The text before the first marker, when no `_` comes earlier. */
  lemma {:induction false} SimnameBeforeMarker(a: string, b: string)
    requires '_' !in a
    ensures SimnameFromMetadataFilename(a + "_Meta" + b) == a
    decreases |a|
  {
    var f := a + "_Meta" + b;
    if |a| > 0 {
      assert f[0] == a[0] && f[0] != '_';
      assert f[1..] == a[1..] + "_Meta" + b;
      SimnameBeforeMarker(a[1..], b);
      assert [a[0]] + a[1..] == a;
    } else {
      assert "_Meta" <= f;
    }
  }

  lemma NumberCharsExclude(s: string)
    requires NumberChars(s)
    ensures '_' !in s && ':' !in s && 'e' !in s
  {
    forall i | 0 <= i < |s| ensures s[i] != '_' && s[i] != ':' && s[i] != 'e' {
      assert IsDigit(s[i]) || s[i] == ' ' || s[i] == '-';
    }
  }

  /** No `-` in a formatted non-negative number. */
  lemma NonNegativeNoDash(i: int)
    requires i >= 0
    ensures '-' !in FormatD(i) && '-' !in Format04d(i) && '-' !in Format3d(i)
  {
    assert AllDigits(Digits(i));
    var w := if |Digits(i)| >= 3 then "" else Repeat(' ', 3 - |Digits(i)|);
    assert Format3d(i) == w + Digits(i);
    var z := if |Digits(i)| >= 4 then "" else Repeat('0', 4 - |Digits(i)|);
    assert Format04d(i) == z + Digits(i);
  }

  /** The characters the name deriver splits on or searches for. */
  predicate NoSeparators(s: string)
  {
    '_' !in s && ':' !in s && 'e' !in s
  }

  /** A formatted number never holds a separator. */
  lemma FormatsExclude(i: int)
    ensures NoSeparators(Format04d(i)) && NoSeparators(Format3d(i)) && NoSeparators(FormatD(i))
  {
    FormatChars(i);
    NumberCharsExclude(Format04d(i));
    NumberCharsExclude(Format3d(i));
    NumberCharsExclude(FormatD(i));
  }

  lemma QcNoUnderscore(f4: string, f3: string, d: string)
    requires NoSeparators(f4) && NoSeparators(f3) && NoSeparators(d)
    ensures '_' !in "RIT:BBH:" + f4 + "-n" + f3 + "-id" + d
  {
  }

  lemma EccNoUnderscore(f4: string, f3: string)
    requires NoSeparators(f4) && NoSeparators(f3)
    ensures '_' !in "RIT:eBBH:" + f4 + "-n" + f3 + "-ecc"
  {
  }

  /** A name without `_` followed by `_Metadata.txt` gives the name back. */
  lemma SimnameOfMetadataName(a: string)
    requires '_' !in a
    ensures SimnameFromMetadataFilename(a + "_Metadata.txt") == a
  {
    assert a + "_Metadata.txt" == a + "_Meta" + "data.txt";
    SimnameBeforeMarker(a, "data.txt");
  }

  /** The quasicircular template over any three number texts. */
  lemma QcTemplateOfPieces(f4: string, f3: string, d: string)
    requires NoSeparators(f4) && NoSeparators(f3) && NoSeparators(d)
    ensures "RIT:BBH:" + f4 + "-n" + f3 + "-id" + d + "_Metadata.txt"
            == ("RIT:BBH:" + f4 + "-n" + f3 + "-id" + d) + "_Metadata.txt"
    ensures SimnameFromMetadataFilename("RIT:BBH:" + f4 + "-n" + f3 + "-id" + d + "_Metadata.txt")
            == "RIT:BBH:" + f4 + "-n" + f3 + "-id" + d
  {
    var q := "RIT:BBH:" + f4 + "-n" + f3 + "-id" + d;
    QcNoUnderscore(f4, f3, d);
    SimnameOfMetadataName(q);
  }

  lemma AppendAssoc<T>(x: seq<T>, y: seq<T>, z: seq<T>)
    ensures x + (y + z) == (x + y) + z
  {
  }

  /** The eccentric template over any two number texts. */
  lemma EccTemplateOfPieces(f4: string, f3: string)
    requires NoSeparators(f4) && NoSeparators(f3)
    ensures "RIT:eBBH:" + f4 + "-n" + f3 + "-ecc_Metadata.txt"
            == ("RIT:eBBH:" + f4 + "-n" + f3 + "-ecc") + "_Metadata.txt"
    ensures SimnameFromMetadataFilename("RIT:eBBH:" + f4 + "-n" + f3 + "-ecc_Metadata.txt")
            == "RIT:eBBH:" + f4 + "-n" + f3 + "-ecc"
  {
    var e := "RIT:eBBH:" + f4 + "-n" + f3 + "-ecc";
    var p := "RIT:eBBH:" + f4 + "-n" + f3;
    EccNoUnderscore(f4, f3);
    EccSuffix();
    AppendAssoc(p, "-ecc", "_Metadata.txt");
    SimnameOfMetadataName(e);
  }

  lemma EccSuffix()
    ensures "-ecc_Metadata.txt" == "-ecc" + "_Metadata.txt"
  {
  }

  /** A quasicircular file name is its simulation name followed by
      `_Metadata.txt`, and `simname_from_metadata_filename` gives that
      simulation name back. */
  lemma QcSimnameOfTemplate(idx: int, res: int, id: int)
    ensures QcMetadataFilename(idx, res, id) == QcSimname(idx, res, id) + "_Metadata.txt"
    ensures SimnameFromMetadataFilename(QcMetadataFilename(idx, res, id)) == QcSimname(idx, res, id)
  {
    FormatsExclude(idx);
    FormatsExclude(res);
    FormatsExclude(id);
    QcTemplateOfPieces(Format04d(idx), Format3d(res), FormatD(id));
  }

  /** The same for the eccentric family. */
  lemma EccSimnameOfTemplate(idx: int, res: int)
    ensures EccMetadataFilename(idx, res) == EccSimname(idx, res) + "_Metadata.txt"
    ensures SimnameFromMetadataFilename(EccMetadataFilename(idx, res)) == EccSimname(idx, res)
  {
    FormatsExclude(idx);
    FormatsExclude(res);
    EccTemplateOfPieces(Format04d(idx), Format3d(res));
  }

  /** `simnames` gives the simulation names of both families, in order. */
  lemma SimnamesOfTemplates(idx: int, res: int, id: int)
    ensures Simnames(idx, res, id) == [QcSimname(idx, res, id), EccSimname(idx, res)]
  {
    QcSimnameOfTemplate(idx, res, id);
    EccSimnameOfTemplate(idx, res);
  }

  /** A prefix without `_` survives cutting the name at `_Meta`. */
  lemma {:induction false} SimnameKeepsPrefix(t: string, name: string)
    requires '_' !in t && t <= name
    ensures t <= SimnameFromMetadataFilename(name)
    decreases |t|
  {
    if |t| > 0 {
      assert name[0] == t[0] && !("_Meta" <= name);
      assert t[1..] <= name[1..];
      SimnameKeepsPrefix(t[1..], name[1..]);
    }
  }

  lemma TagNoUnderscore(f4: string)
    requires NoSeparators(f4)
    ensures '_' !in "RIT:BBH:" + f4 && '_' !in "RIT:eBBH:" + f4
  {
  }

  lemma TagPrefixes(f4: string, f3: string, d: string)
    ensures "RIT:BBH:" + f4 <= "RIT:BBH:" + f4 + "-n" + f3 + "-id" + d
    ensures "RIT:eBBH:" + f4 <= "RIT:eBBH:" + f4 + "-n" + f3 + "-ecc"
  {
    assert "RIT:BBH:" + f4 + "-n" + f3 + "-id" + d == ("RIT:BBH:" + f4) + ("-n" + f3 + "-id" + d);
    assert "RIT:eBBH:" + f4 + "-n" + f3 + "-ecc" == ("RIT:eBBH:" + f4) + ("-n" + f3 + "-ecc");
  }

  /** `metadata_filenames` lists the quasicircular name first and the
      eccentric one second; each simulation tag of the index is a prefix of
      the simulation name of its own family, which is a prefix of the file
      name. */
  lemma TagsArePrefixes(idx: int, res: int, id: int)
    ensures |MetadataFilenames(idx, res, id)| == 2 && |Simtags(idx)| == 2
    ensures MetadataFilenames(idx, res, id)[0] == QcSimname(idx, res, id) + "_Metadata.txt"
    ensures MetadataFilenames(idx, res, id)[1] == EccSimname(idx, res) + "_Metadata.txt"
    ensures Simtags(idx)[0] <= Simnames(idx, res, id)[0] <= MetadataFilenames(idx, res, id)[0]
    ensures Simtags(idx)[1] <= Simnames(idx, res, id)[1] <= MetadataFilenames(idx, res, id)[1]
  {
    QcSimnameOfTemplate(idx, res, id);
    EccSimnameOfTemplate(idx, res);
    SimnamesOfTemplates(idx, res, id);
    TagPrefixes(Format04d(idx), Format3d(res), FormatD(id));
  }

  /** Three pieces around two separators. */
  lemma SplitThree(a: string, b: string, c: string, sep: char)
    requires sep !in a && sep !in b && sep !in c
    ensures Split(a + [sep] + b + [sep] + c, sep) == [a, b, c]
  {
    assert a + [sep] + b + [sep] + c == a + [sep] + (b + [sep] + c);
    SplitCons(a, b + [sep] + c, sep);
    SplitCons(b, c, sep);
    SplitNone(c, sep);
  }

  /** What follows the family in a simulation name:
      `{:04d}-n{:3d}-` and the family's own tail (`id{:d}` or `ecc`). */
  function AfterFamily(idx: int, res: int, tail: string): string
  {
    Format04d(idx) + "-n" + Format3d(res) + "-" + tail
  }

  lemma QcShapeOfPieces(f4: string, f3: string, d: string)
    ensures "RIT:BBH:" + f4 + "-n" + f3 + "-id" + d == "RIT:" + "BBH" + ":" + (f4 + "-n" + f3 + "-" + ("id" + d))
  {
    assert "RIT:BBH:" == "RIT:" + "BBH" + ":";
    assert "-id" + d == "-" + ("id" + d);
  }

  lemma EccShapeOfPieces(f4: string, f3: string)
    ensures "RIT:eBBH:" + f4 + "-n" + f3 + "-ecc" == "RIT:" + "eBBH" + ":" + (f4 + "-n" + f3 + "-" + "ecc")
  {
    assert "RIT:eBBH:" == "RIT:" + "eBBH" + ":";
    assert "-ecc" == "-" + "ecc";
  }

  lemma QcSimnameShape(idx: int, res: int, id: int)
    ensures QcSimname(idx, res, id) == "RIT:" + "BBH" + ":" + AfterFamily(idx, res, "id" + FormatD(id))
  {
    QcShapeOfPieces(Format04d(idx), Format3d(res), FormatD(id));
  }

  lemma EccSimnameShape(idx: int, res: int)
    ensures EccSimname(idx, res) == "RIT:" + "eBBH" + ":" + AfterFamily(idx, res, "ecc")
  {
    EccShapeOfPieces(Format04d(idx), Format3d(res));
  }

  lemma ColonPieces(family: string, txt: string)
    requires family == "BBH" || family == "eBBH"
    requires ':' !in txt
    ensures Split("RIT:" + family + ":" + txt, ':') == ["RIT", family, txt]
  {
    assert "RIT:" + family + ":" + txt == "RIT" + [':'] + family + [':'] + txt;
    SplitThree("RIT", family, txt, ':');
  }

  lemma DashPieces(idx: int, res: int, tail: string)
    requires idx >= 0 && res >= 0 && '-' !in tail
    ensures Split(AfterFamily(idx, res, tail), '-') == [Format04d(idx), "n" + Format3d(res), tail]
  {
    var f4, f3 := Format04d(idx), Format3d(res);
    NonNegativeNoDash(idx);
    NonNegativeNoDash(res);
    assert AfterFamily(idx, res, tail) == f4 + ['-'] + ("n" + f3) + ['-'] + tail;
    SplitThree(f4, "n" + f3, tail, '-');
  }

  lemma NumbersOfAfterFamily(idx: int, res: int, tail: string)
    requires 0 <= idx < 10000 && res >= 0
    ensures PyPrefix(AfterFamily(idx, res, tail), 4) == Format04d(idx)
    ensures PyInt(Format04d(idx)) == Some(idx)
    ensures PyInt(PyDrop("n" + Format3d(res), 1)) == Some(res)
  {
    Format04dRoundTrip(idx);
    Format3dRoundTrip(res);
    assert PyDrop("n" + Format3d(res), 1) == Format3d(res);
  }

  lemma IndexAndResolutionOfPieces(name: string, family: string, txt: string, f4: string, mid: string, tail: string, idx: int, res: int)
    requires Split(name, ':') == ["RIT", family, txt]
    requires Split(txt, '-') == [f4, mid, tail]
    requires PyPrefix(txt, 4) == f4 && PyInt(f4) == Some(idx)
    requires PyInt(PyDrop(mid, 1)) == Some(res)
    ensures IndexAndResolution(name) == Ok((txt, idx, res))
  {
  }

  /** The index and the resolution read back from a simulation name of
      either family. */
  lemma IndexAndResolutionOfSimname(idx: int, res: int, family: string, tail: string)
    requires 0 <= idx < 10000 && res >= 0
    requires family == "BBH" || family == "eBBH"
    requires ':' !in tail && '-' !in tail
    ensures IndexAndResolution("RIT:" + family + ":" + AfterFamily(idx, res, tail))
         == Ok((AfterFamily(idx, res, tail), idx, res))
  {
    var txt := AfterFamily(idx, res, tail);
    FormatsExclude(idx);
    FormatsExclude(res);
    assert ':' !in txt;
    ColonPieces(family, txt);
    DashPieces(idx, res, tail);
    NumbersOfAfterFamily(idx, res, tail);
    IndexAndResolutionOfPieces("RIT:" + family + ":" + txt, family, txt, Format04d(idx),
      "n" + Format3d(res), tail, idx, res);
  }

  lemma SimInfoOfPieces(name: string, head: string, mid: string, rest: string, idx: int, res: int, id: int)
    requires Split(name, '-') == [head, mid, rest]
    requires PyInt(PyLastN(head, 4)) == Some(idx)
    requires PyInt(PyDrop(mid, 1)) == Some(res)
    requires PyInt(PyDrop(Split(rest, '_')[0], 2)) == Some(id)
    ensures SimInfoFromMetadataFilename(name) == Ok((idx, res, id))
  {
  }

  /** How a quasicircular name built from three number texts splits on
      `-`. */
  lemma QcDashPieces(f4: string, f3: string, rest: string)
    requires '-' !in f4 && '-' !in f3 && '-' !in rest
    ensures Split("RIT:BBH:" + f4 + "-n" + f3 + "-" + rest, '-') == ["RIT:BBH:" + f4, "n" + f3, rest]
  {
    var head := "RIT:BBH:" + f4;
    assert '-' !in head;
    assert "-n" == ['-'] + "n";
    AppendAssoc(head, ['-'], "n");
    AppendAssoc(head + ['-'], "n", f3);
    assert head + "-n" + f3 == head + ['-'] + ("n" + f3);
    SplitThree(head, "n" + f3, rest, '-');
  }

  /** The third piece of such a name, cut at its first `_`. */
  lemma StemOfTail(d: string, tail: string)
    requires '_' !in d && (tail == [] || tail[0] == '_')
    ensures Split("id" + d + tail, '_')[0] == "id" + d
  {
    var stem := "id" + d;
    if tail == [] {
      assert stem + tail == stem;
      SplitNone(stem, '_');
    } else {
      assert stem + tail == stem + ['_'] + tail[1..];
      SplitCons(stem, tail[1..], '_');
    }
  }

  /** `sim_info_from_metadata_filename` over a quasicircular name built
      from any three number texts, followed by nothing or by a part
      starting with `_`. */
  lemma QcInfoOfPieces(name: string, f4: string, f3: string, d: string, tail: string, idx: int, res: int, id: int)
    requires name == "RIT:BBH:" + f4 + "-n" + f3 + "-id" + d + tail
    requires |f4| == 4 && '-' !in f4 && '-' !in f3 && '-' !in d && '_' !in d && '-' !in tail
    requires tail == [] || tail[0] == '_'
    requires PyInt(f4) == Some(idx) && PyInt(f3) == Some(res) && PyInt(d) == Some(id)
    ensures SimInfoFromMetadataFilename(name) == Ok((idx, res, id))
  {
    QcNamePieces(name, f4, f3, d, tail);
    SimInfoOfPieces(name, "RIT:BBH:" + f4, "n" + f3, "id" + d + tail, idx, res, id);
  }

  /** The texts such a name gives to the three `int` calls. */
  lemma QcNamePieces(name: string, f4: string, f3: string, d: string, tail: string)
    requires name == "RIT:BBH:" + f4 + "-n" + f3 + "-id" + d + tail
    requires |f4| == 4 && '-' !in f4 && '-' !in f3 && '-' !in d && '_' !in d && '-' !in tail
    requires tail == [] || tail[0] == '_'
    ensures Split(name, '-') == ["RIT:BBH:" + f4, "n" + f3, "id" + d + tail]
    ensures PyLastN("RIT:BBH:" + f4, 4) == f4 && PyDrop("n" + f3, 1) == f3
    ensures PyDrop(Split("id" + d + tail, '_')[0], 2) == d
  {
    var head, stem := "RIT:BBH:" + f4, "id" + d;
    var p := head + "-n" + f3;
    assert "-id" == "-" + "id";
    AppendAssoc(p + "-id", d, tail);
    AppendAssoc(p, "-", "id");
    AppendAssoc(p + "-", "id", d + tail);
    AppendAssoc("id", d, tail);
    assert name == p + "-" + (stem + tail);
    QcDashPieces(f4, f3, stem + tail);
    StemOfTail(d, tail);
    assert PyLastN(head, 4) == f4;
    assert PyDrop("n" + f3, 1) == f3;
    assert PyDrop(stem, 2) == d;
  }

  /** The facts about the three formatted numbers the lemma above needs. */
  lemma QcNumberPieces(idx: int, res: int, id: int)
    requires 0 <= idx < 10000 && res >= 0 && id >= 0
    ensures |Format04d(idx)| == 4 && '-' !in Format04d(idx) && '-' !in Format3d(res)
    ensures '-' !in FormatD(id) && '_' !in FormatD(id)
    ensures PyInt(Format04d(idx)) == Some(idx) && PyInt(Format3d(res)) == Some(res)
    ensures PyInt(FormatD(id)) == Some(id)
  {
    Format04dRoundTrip(idx);
    Format3dRoundTrip(res);
    FormatDRoundTrip(id);
    NonNegativeNoDash(idx);
    NonNegativeNoDash(res);
    NonNegativeNoDash(id);
    FormatsExclude(id);
  }

  /** `sim_info_from_metadata_filename` recovers (index, resolution, id)
      from a quasicircular metadata file name. */
  lemma SimInfoRoundTrip(idx: int, res: int, id: int)
    requires 0 <= idx < 10000 && res >= 0 && id >= 0
    ensures SimInfoFromMetadataFilename(QcMetadataFilename(idx, res, id)) == Ok((idx, res, id))
  {
    var f4, f3, d := Format04d(idx), Format3d(res), FormatD(id);
    QcNumberPieces(idx, res, id);
    MetadataSuffix();
    QcInfoOfPieces(QcMetadataFilename(idx, res, id), f4, f3, d, "_Metadata.txt", idx, res, id);
  }

  lemma MetadataSuffix()
    ensures '-' !in "_Metadata.txt" && "_Metadata.txt"[0] == '_'
  {
  }

  /** The same for the simulation name, which is what the table lookup
      passes. */
  lemma SimInfoOfQcSimname(idx: int, res: int, id: int)
    requires 0 <= idx < 10000 && res >= 0 && id >= 0
    ensures SimInfoFromMetadataFilename(QcSimname(idx, res, id)) == Ok((idx, res, id))
  {
    QcNumberPieces(idx, res, id);
    assert QcSimname(idx, res, id) == QcSimname(idx, res, id) + "";
    QcInfoOfPieces(QcSimname(idx, res, id), Format04d(idx), Format3d(res), FormatD(id), "", idx, res, id);
  }

  /** It cannot read an eccentric simulation name: `int("ecc"[2:])`
      raises. */
  lemma SimInfoRejectsEccentric(idx: int, res: int)
    requires 0 <= idx < 10000 && res >= 0
    ensures SimInfoFromMetadataFilename(EccSimname(idx, res)).Err?
  {
    EccDashPieces(idx, res);
    EccIdFails();
  }

  lemma EccDashPieces(idx: int, res: int)
    requires idx >= 0 && res >= 0
    ensures Split(EccSimname(idx, res), '-') == ["RIT:eBBH:" + Format04d(idx), "n" + Format3d(res), "ecc"]
  {
    var f3 := Format3d(res);
    var head := "RIT:eBBH:" + Format04d(idx);
    NonNegativeNoDash(idx);
    NonNegativeNoDash(res);
    assert '-' !in head;
    assert "-n" == ['-'] + "n";
    AppendAssoc(head, ['-'], "n");
    AppendAssoc(head + ['-'], "n", f3);
    assert EccSimname(idx, res) == head + ['-'] + ("n" + f3) + ['-'] + "ecc";
    SplitThree(head, "n" + f3, "ecc", '-');
  }

  /** `int("ecc".split('_')[0][2:])` raises. */
  lemma EccIdFails()
    ensures PyInt(PyDrop(Split("ecc", '_')[0], 2)).None?
  {
    SplitNone("ecc", '_');
    assert PyDrop("ecc", 2) == "c";
    assert Strip("c") == "c";
  }

  lemma QcHasNoE(f4: string, f3: string, d: string)
    requires NoSeparators(f4) && NoSeparators(f3) && NoSeparators(d)
    ensures 'e' !in "RIT:BBH:" + f4 + "-n" + f3 + "-id" + d
  {
  }

  /** The family test: quasicircular names never contain `eBBH` ... */
  lemma QcFamilyMarker(idx: int, res: int, id: int)
    ensures !Contains(QcSimname(idx, res, id), "eBBH")
  {
    FormatsExclude(idx);
    FormatsExclude(res);
    FormatsExclude(id);
    QcHasNoE(Format04d(idx), Format3d(res), FormatD(id));
    NotContainsChar(QcSimname(idx, res, id), "eBBH", 'e');
  }

  /** ... and eccentric ones always do. */
  lemma EccFamilyMarker(idx: int, res: int)
    ensures Contains(EccSimname(idx, res), "eBBH")
  {
    var e := EccSimname(idx, res);
    assert "eBBH" <= e[4..];
    ContainsAt(e, "eBBH", 4);
  }

  lemma SingleDigit(id: int)
    requires 0 <= id <= 9
    ensures id % 10 == id
  {
  }

  lemma LastCharIntOfSuffix(a: string, b: string)
    requires |b| > 0
    ensures LastCharInt(a + b) == LastCharInt(b)
  {
    assert (a + b)[|a + b| - 1] == b[|b| - 1];
  }

  lemma LastCharOfQcTail(idx: int, res: int, id: int)
    requires id >= 0
    ensures LastCharInt(AfterFamily(idx, res, "id" + FormatD(id))) == Some(id % 10)
  {
    var d := FormatD(id);
    LastDigitRoundTrip(id);
    LastCharIntOfSuffix(Format04d(idx) + "-n" + Format3d(res) + "-", "id" + d);
    LastCharIntOfSuffix("id", d);
  }

  lemma LastCharOfEccTail(idx: int, res: int)
    ensures LastCharInt(AfterFamily(idx, res, "ecc")) == None
  {
    var txt := AfterFamily(idx, res, "ecc");
    assert [txt[|txt| - 1]] == "c";
    assert Strip("c") == "c";
  }

  lemma QcMetadataOfParsed(name: string, txt: string, idx: int, res: int, id: int)
    requires IndexAndResolution(name) == Ok((txt, idx, res))
    requires !Contains(name, "eBBH") && LastCharInt(txt) == Some(id)
    ensures MetadataFilenameFromSimname(name) == Ok(QcMetadataFilename(idx, res, id))
  {
  }

  lemma EccMetadataOfParsed(name: string, txt: string, idx: int, res: int)
    requires IndexAndResolution(name) == Ok((txt, idx, res))
    requires Contains(name, "eBBH")
    ensures MetadataFilenameFromSimname(name) == Ok(EccMetadataFilename(idx, res))
  {
  }

  /** `metadata_filename_from_simname` rebuilds the file name of a
      quasicircular simulation name whose id is a single digit (it reads
      only the last character). */
  lemma QcMetadataFromSimname(idx: int, res: int, id: int)
    requires 0 <= idx < 10000 && res >= 0 && 0 <= id <= 9
    ensures MetadataFilenameFromSimname(QcSimname(idx, res, id)) == Ok(QcMetadataFilename(idx, res, id))
  {
    QcFamilyMarker(idx, res, id);
    FormatsExclude(id);
    NonNegativeNoDash(id);
    QcSimnameShape(idx, res, id);
    IndexAndResolutionOfSimname(idx, res, "BBH", "id" + FormatD(id));
    var name, txt := QcSimname(idx, res, id), AfterFamily(idx, res, "id" + FormatD(id));
    assert IndexAndResolution(name) == Ok((txt, idx, res));
    LastCharOfQcTail(idx, res, id);
    SingleDigit(id);
    QcMetadataOfParsed(name, txt, idx, res, id);
  }

  /** `metadata_filename_from_simname` inverts `simname_from_metadata_filename`
      on quasicircular file names with a single-digit id ... */
  lemma QcMetadataFilenameRoundTrip(idx: int, res: int, id: int)
    requires 0 <= idx < 10000 && res >= 0 && 0 <= id <= 9
    ensures MetadataFilenameFromSimname(SimnameFromMetadataFilename(QcMetadataFilename(idx, res, id)))
         == Ok(QcMetadataFilename(idx, res, id))
  {
    QcSimnameOfTemplate(idx, res, id);
    QcMetadataFromSimname(idx, res, id);
  }

  /** ... and on every eccentric name. */
  lemma EccMetadataFilenameRoundTrip(idx: int, res: int)
    requires 0 <= idx < 10000 && res >= 0
    ensures MetadataFilenameFromSimname(SimnameFromMetadataFilename(EccMetadataFilename(idx, res)))
         == Ok(EccMetadataFilename(idx, res))
  {
    EccSimnameOfTemplate(idx, res);
    EccMetadataFromSimname(idx, res);
  }

  /** `metadata_filename_from_simname` rebuilds the file name of every
      eccentric simulation name. */
  lemma EccMetadataFromSimname(idx: int, res: int)
    requires 0 <= idx < 10000 && res >= 0
    ensures MetadataFilenameFromSimname(EccSimname(idx, res)) == Ok(EccMetadataFilename(idx, res))
  {
    EccFamilyMarker(idx, res);
    EccSimnameShape(idx, res);
    IndexAndResolutionOfSimname(idx, res, "eBBH", "ecc");
    EccMetadataOfParsed(EccSimname(idx, res), AfterFamily(idx, res, "ecc"), idx, res);
  }

  /** The waveform file name of a metadata file: family, index and
      resolution carried over, the identifier dropped. */
  function ExpectedWaveformFilename(family: string, idx: int, res: int): string
  {
    "ExtrapStrain_RIT-" + family + "-" + Format04d(idx) + "-n" + Format3d(res) + ".h5"
  }

  lemma StemOfThird(stem: string)
    requires '_' !in stem
    ensures Split(stem + "_Metadata.txt", '_')[0] == stem
  {
    assert stem + "_Metadata.txt" == stem + ['_'] + "Metadata.txt";
    SplitCons(stem, "Metadata.txt", '_');
  }

  lemma StemPieces(f4: string, f3: string, tail: string)
    requires '-' !in f4 && '-' !in f3 && '-' !in tail
    ensures Split(f4 + "-n" + f3 + "-" + tail, '-') == [f4, "n" + f3, tail]
  {
    assert f4 + "-n" + f3 + "-" + tail == f4 + ['-'] + ("n" + f3) + ['-'] + tail;
    SplitThree(f4, "n" + f3, tail, '-');
  }

  lemma StemSeparators(f4: string, f3: string, tail: string)
    requires NoSeparators(f4) && NoSeparators(f3) && '_' !in tail && ':' !in tail
    ensures '_' !in f4 + "-n" + f3 + "-" + tail
    ensures ':' !in f4 + "-n" + f3 + "-" + tail + "_Metadata.txt"
  {
  }

  lemma TemplateShapes(f4: string, f3: string, d: string)
    ensures "RIT:BBH:" + f4 + "-n" + f3 + "-id" + d + "_Metadata.txt"
         == "RIT:" + "BBH" + ":" + (f4 + "-n" + f3 + "-" + ("id" + d) + "_Metadata.txt")
    ensures "RIT:eBBH:" + f4 + "-n" + f3 + "-ecc_Metadata.txt"
         == "RIT:" + "eBBH" + ":" + (f4 + "-n" + f3 + "-" + "ecc" + "_Metadata.txt")
  {
  }

  lemma QcMetadataShape(idx: int, res: int, id: int)
    ensures QcMetadataFilename(idx, res, id)
         == "RIT:" + "BBH" + ":" + (Format04d(idx) + "-n" + Format3d(res) + "-" + ("id" + FormatD(id)) + "_Metadata.txt")
  {
    TemplateShapes(Format04d(idx), Format3d(res), FormatD(id));
  }

  lemma EccMetadataShape(idx: int, res: int)
    ensures EccMetadataFilename(idx, res)
         == "RIT:" + "eBBH" + ":" + (Format04d(idx) + "-n" + Format3d(res) + "-" + "ecc" + "_Metadata.txt")
  {
    TemplateShapes(Format04d(idx), Format3d(res), "");
  }

  lemma WaveformOfPieces(mf: string, family: string, third: string, f4: string, mid: string, tail: string)
    requires Split(mf, ':') == ["RIT", family, third]
    requires Split(Split(third, '_')[0], '-') == [f4, mid, tail]
    ensures WaveformFromMetadataFilename(mf) == Some("ExtrapStrain_RIT-" + family + "-" + f4 + "-" + mid + ".h5")
  {
    assert "ExtrapStrain_" + "RIT" + "-" + family + "-" + f4 + "-" + mid + ".h5"
        == "ExtrapStrain_RIT-" + family + "-" + f4 + "-" + mid + ".h5";
  }

  /** Reassembling the waveform file name from a filled-in metadata
      template keeps the family, the index and the resolution. */
  lemma WaveformOfTemplate(family: string, f4: string, f3: string, tail: string)
    requires family == "BBH" || family == "eBBH"
    requires NoSeparators(f4) && NoSeparators(f3) && '_' !in tail && ':' !in tail
    requires '-' !in f4 && '-' !in f3 && '-' !in tail
    ensures WaveformFromMetadataFilename("RIT:" + family + ":" + (f4 + "-n" + f3 + "-" + tail + "_Metadata.txt"))
         == Some("ExtrapStrain_RIT-" + family + "-" + f4 + "-n" + f3 + ".h5")
  {
    var stem := f4 + "-n" + f3 + "-" + tail;
    var third := stem + "_Metadata.txt";
    StemSeparators(f4, f3, tail);
    ColonPieces(family, third);
    StemOfThird(stem);
    StemPieces(f4, f3, tail);
    WaveformOfPieces("RIT:" + family + ":" + third, family, third, f4, "n" + f3, tail);
    assert "ExtrapStrain_RIT-" + family + "-" + f4 + "-" + ("n" + f3) + ".h5"
        == "ExtrapStrain_RIT-" + family + "-" + f4 + "-n" + f3 + ".h5";
  }

  lemma WaveformOfParsed(name: string, txt: string, idx: int, res: int, w: string)
    requires IndexAndResolution(name) == Ok((txt, idx, res))
    requires WaveformFromMetadataFilename(RebuiltMetadataFilename(txt, idx, res)) == Some(w)
    ensures WaveformFilenameFromSimname(name) == Ok(w)
  {
  }

  /** The waveform file name of a quasicircular metadata file. */
  lemma QcMetadataWaveform(idx: int, res: int, id: int)
    requires idx >= 0 && res >= 0 && id >= 0
    ensures WaveformFromMetadataFilename(QcMetadataFilename(idx, res, id))
         == Some(ExpectedWaveformFilename("BBH", idx, res))
  {
    FormatsExclude(idx);
    FormatsExclude(res);
    FormatsExclude(id);
    NonNegativeNoDash(idx);
    NonNegativeNoDash(res);
    NonNegativeNoDash(id);
    QcMetadataShape(idx, res, id);
    WaveformOfTemplate("BBH", Format04d(idx), Format3d(res), "id" + FormatD(id));
  }

  /** The waveform file name of an eccentric metadata file. */
  lemma EccMetadataWaveform(idx: int, res: int)
    requires idx >= 0 && res >= 0
    ensures WaveformFromMetadataFilename(EccMetadataFilename(idx, res))
         == Some(ExpectedWaveformFilename("eBBH", idx, res))
  {
    FormatsExclude(idx);
    FormatsExclude(res);
    NonNegativeNoDash(idx);
    NonNegativeNoDash(res);
    EccMetadataShape(idx, res);
    WaveformOfTemplate("eBBH", Format04d(idx), Format3d(res), "ecc");
  }

  /** A quasicircular simulation name gives the BBH waveform file of the
      same index and resolution. */
  lemma QcWaveformFilename(idx: int, res: int, id: int)
    requires 0 <= idx < 10000 && res >= 0 && id >= 0
    ensures WaveformFilenameFromSimname(QcSimname(idx, res, id))
         == Ok(ExpectedWaveformFilename("BBH", idx, res))
  {
    var d := FormatD(id);
    FormatsExclude(id);
    NonNegativeNoDash(id);
    QcSimnameShape(idx, res, id);
    var txt := AfterFamily(idx, res, "id" + d);
    IndexAndResolutionOfSimname(idx, res, "BBH", "id" + d);
    LastCharOfQcTail(idx, res, id);
    QcMetadataWaveform(idx, res, id % 10);
    WaveformOfParsed(QcSimname(idx, res, id), txt, idx, res, ExpectedWaveformFilename("BBH", idx, res));
  }

  /** An eccentric simulation name gives the eBBH waveform file of the
      same index and resolution: its last character is not a digit. */
  lemma EccWaveformFilename(idx: int, res: int)
    requires 0 <= idx < 10000 && res >= 0
    ensures WaveformFilenameFromSimname(EccSimname(idx, res))
         == Ok(ExpectedWaveformFilename("eBBH", idx, res))
  {
    EccSimnameShape(idx, res);
    var txt := AfterFamily(idx, res, "ecc");
    IndexAndResolutionOfSimname(idx, res, "eBBH", "ecc");
    LastCharOfEccTail(idx, res);
    EccMetadataWaveform(idx, res);
    WaveformOfParsed(EccSimname(idx, res), txt, idx, res, ExpectedWaveformFilename("eBBH", idx, res));
  }

  lemma ExampleFormats()
    ensures Format04d(5) == "0005" && Format3d(100) == "100" && FormatD(0) == "0"
  {
    assert Digits(5) == [DigitChar(5)] == "5";
    assert Digits(0) == [DigitChar(0)] == "0";
    assert Digits(1) == "1";
    assert Digits(10) == Digits(1) + [DigitChar(0)] == "10";
    assert Digits(100) == Digits(10) + [DigitChar(0)] == "100";
    assert Repeat('0', 3) == "000";
  }

  /** The example in the source's own documentation. */
  lemma WaveformFilenameExample()
    ensures WaveformFilenameFromSimname("RIT:BBH:0005-n100-id0") == Ok("ExtrapStrain_RIT-BBH-0005-n100.h5")
  {
    ExampleFormats();
    assert QcSimname(5, 100, 0) == "RIT:BBH:" + "0005" + "-n" + "100" + "-id" + "0" == "RIT:BBH:0005-n100-id0";
    assert ExpectedWaveformFilename("BBH", 5, 100) == "ExtrapStrain_RIT-" + "BBH" + "-" + "0005" + "-n" + "100" + ".h5"
        == "ExtrapStrain_RIT-BBH-0005-n100.h5";
    QcWaveformFilename(5, 100, 0);
  }
}
