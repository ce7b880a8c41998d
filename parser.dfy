/** `parse_metadata_txt`: keeps the lines of a metadata file that start with
    a letter and reads each of them as `key = value` into a dictionary, a
    later line overwriting an earlier one with the same key. */
module MetadataParser {
  import opened Wrappers
  import opened PyStrings

  /** A dictionary value: the stripped text `float(...)` accepted, kept as
      its literal, or the stripped text itself. */
  datatype Value = Num(literal: string) | Text(text: string)

  type Fields = map<string, Value>

  /** `len(s) > 0 and s[0].isalpha()`. */
  predicate IsDataLine(s: string)
  {
    |s| > 0 && IsAlpha(s[0])
  }

  /** `a` is what remains of `b` after deleting some of its elements. */
  predicate IsSubsequence<T(==)>(a: seq<T>, b: seq<T>)
    decreases |b|
  {
    if |a| == 0 then true
    else if |b| == 0 then false
    else if a[0] == b[0] then IsSubsequence(a[1..], b[1..])
    else IsSubsequence(a, b[1..])
  }

  /** `[s for s in raw if len(s) > 0 and s[0].isalpha()]`. */
  function KeptLines(raw: seq<string>): (kept: seq<string>)
    ensures IsSubsequence(kept, raw)
    ensures forall i :: 0 <= i < |kept| ==> IsDataLine(kept[i])
    ensures forall s :: s in kept <==> s in raw && IsDataLine(s)
    ensures forall s :: multiset(kept)[s] == if IsDataLine(s) then multiset(raw)[s] else 0
    decreases |raw|
  {
    if |raw| == 0 then []
    else
      assert raw == [raw[0]] + raw[1..];
      if IsDataLine(raw[0]) then [raw[0]] + KeptLines(raw[1..])
      else KeptLines(raw[1..])
  }

  /** Kept lines hold no `\r` or `\n` when the input lines hold none
      of the first and no line holds the second, as after splitting at
      `\n`. */
  lemma KeptLinesAvoid(raw: seq<string>)
    requires forall j :: 0 <= j < |raw| ==> '\r' !in raw[j]
    requires forall j :: 0 <= j < |raw| ==> '\n' !in raw[j]
    ensures forall i :: 0 <= i < |KeptLines(raw)| ==> '\r' !in KeptLines(raw)[i] && '\n' !in KeptLines(raw)[i]
  {
    var kept := KeptLines(raw);
    forall i | 0 <= i < |kept| ensures '\r' !in kept[i] && '\n' !in kept[i] {
      assert kept[i] in kept;
      var j :| 0 <= j < |raw| && raw[j] == kept[i];
    }
  }

  /** `kv[0].strip()` for `kv = s.split('=')`. */
  function LineKey(s: string): string
  {
    Strip(BeforeFirst(s, '='))
  }

  /** `float(v)` when it succeeds, `str(v)` otherwise. */
  function ValueOf(v: string): Value
  {
    if IsPyFloat(v) then Num(v) else Text(v)
  }

  /** The value read from `kv[1].strip()`; None where `kv[1]` raises
      IndexError, that is when the line holds no `=`. */
  function LineValue(s: string): (r: Option<Value>)
    ensures r.Some? <==> '=' in s
  {
    SplitMany(s, '=');
    var kv := Split(s, '=');
    if |kv| < 2 then None else Some(ValueOf(Strip(kv[1])))
  }

  /** The keys of some lines. */
  function KeysOf(lines: seq<string>): (keys: set<string>)
    ensures forall k :: k in keys <==> exists i :: 0 <= i < |lines| && LineKey(lines[i]) == k
    decreases |lines|
  {
    if |lines| == 0 then {}
    else
      var rest := KeysOf(lines[1..]);
      assert forall i :: 1 <= i < |lines| ==> lines[i] == lines[1..][i - 1];
      {LineKey(lines[0])} + rest
  }

  /** The dictionary the loop builds from `acc` over `lines`, in order. A
      line without `=` raises from inside the `except` handler, which ends
      the parse. */
  function FieldsFrom(lines: seq<string>, acc: Fields): (r: Result<Fields>)
    ensures r.Err? ==> r.error.MalformedLine?
    decreases |lines|
  {
    if |lines| == 0 then Ok(acc)
    else
      var v := LineValue(lines[0]);
      if v.None? then Err(MalformedLine(lines[0]))
      else FieldsFrom(lines[1..], acc[LineKey(lines[0]) := v.value])
  }

  /** The loop succeeds exactly when every line holds `=`; it then has the
      keys of `acc` and of the lines, and otherwise stops at a line of the
      input without `=`. */
  lemma {:induction false} FieldsFromFacts(lines: seq<string>, acc: Fields)
    ensures FieldsFrom(lines, acc).Ok? <==> forall s :: s in lines ==> '=' in s
    ensures FieldsFrom(lines, acc).Ok? ==> FieldsFrom(lines, acc).value.Keys == acc.Keys + KeysOf(lines)
    ensures FieldsFrom(lines, acc).Err? ==>
      FieldsFrom(lines, acc).error.line in lines && '=' !in FieldsFrom(lines, acc).error.line
    decreases |lines|
  {
    if |lines| > 0 {
      var v := LineValue(lines[0]);
      if v.Some? {
        var acc' := acc[LineKey(lines[0]) := v.value];
        FieldsFromFacts(lines[1..], acc');
        assert forall s :: s in lines <==> s == lines[0] || s in lines[1..];
        if FieldsFrom(lines, acc).Ok? {
          var keys := KeysOf(lines);
          assert keys == {LineKey(lines[0])} + KeysOf(lines[1..]);
        }
      }
    }
  }

  /** `(next, opts)` as `parse_metadata_txt` returns them. */
  function ParseSpec(raw: seq<string>): (r: Result<(seq<string>, Fields)>)
    ensures r.Ok? ==> IsParse(r.value.0, r.value.1)
    ensures r.Err? ==> r.error.MalformedLine?
  {
    var kept := KeptLines(raw);
    var fields := FieldsFrom(kept, map[]);
    if fields.Err? then Err(fields.error) else Ok((kept, fields.value))
  }

  /** The parse itself: the filter, then the loop filling `opts`. */
  method ParseMetadataTxt(raw: seq<string>) returns (r: Result<(seq<string>, Fields)>)
    ensures r == ParseSpec(raw)
  {
    var next := KeptLines(raw);
    var opts: Fields := map[];
    for i := 0 to |next|
      invariant FieldsFrom(next, map[]) == FieldsFrom(next[i..], opts)
    {
      var kv := Split(next[i], '=');
      SplitMany(next[i], '=');
      if |kv| < 2 {
        return Err(MalformedLine(next[i]));
      }
      assert next[i..][1..] == next[i + 1..];
      opts := opts[LineKey(next[i]) := ValueOf(Strip(kv[1]))];
    }
    assert next[|next|..] == [];
    return Ok((next, opts));
  }

  // --------------------------------------------------------------- lemmas

  /** One step of the loop over a line holding `=`. */
  lemma FieldsStep(lines: seq<string>, acc: Fields)
    requires FieldsFrom(lines, acc).Ok? && |lines| > 0
    ensures LineValue(lines[0]).Some?
    ensures FieldsFrom(lines, acc) == FieldsFrom(lines[1..], acc[LineKey(lines[0]) := LineValue(lines[0]).value])
  {
  }

  /** A key no later line mentions keeps the value it had. */
  lemma {:induction false} FieldsKeepUntouched(lines: seq<string>, acc: Fields, k: string)
    requires FieldsFrom(lines, acc).Ok? && k in acc
    requires forall i :: 0 <= i < |lines| ==> LineKey(lines[i]) != k
    ensures k in FieldsFrom(lines, acc).value && FieldsFrom(lines, acc).value[k] == acc[k]
    decreases |lines|
  {
    if |lines| > 0 {
      var acc' := acc[LineKey(lines[0]) := LineValue(lines[0]).value];
      assert forall i :: 0 <= i < |lines[1..]| ==> lines[1..][i] == lines[i + 1];
      FieldsKeepUntouched(lines[1..], acc', k);
    }
  }

  /** The first line decides the value of its key when no later line
      has that key. */
  lemma FieldsFirstLineWins(lines: seq<string>, acc: Fields)
    requires FieldsFrom(lines, acc).Ok? && |lines| > 0
    requires forall i :: 0 < i < |lines| ==> LineKey(lines[i]) != LineKey(lines[0])
    ensures LineValue(lines[0]).Some? && LineKey(lines[0]) in FieldsFrom(lines, acc).value
    ensures FieldsFrom(lines, acc).value[LineKey(lines[0])] == LineValue(lines[0]).value
  {
    FieldsStep(lines, acc);
    var acc' := acc[LineKey(lines[0]) := LineValue(lines[0]).value];
    var rest := lines[1..];
    assert forall i :: 0 <= i < |rest| ==> rest[i] == lines[i + 1];
    FieldsKeepUntouched(rest, acc', LineKey(lines[0]));
  }

  /** The last line with a key decides its value. */
  lemma {:induction false} FieldsLastWins(lines: seq<string>, acc: Fields, j: int)
    requires FieldsFrom(lines, acc).Ok?
    requires 0 <= j < |lines|
    requires forall i :: j < i < |lines| ==> LineKey(lines[i]) != LineKey(lines[j])
    ensures LineValue(lines[j]).Some? && LineKey(lines[j]) in FieldsFrom(lines, acc).value
    ensures FieldsFrom(lines, acc).value[LineKey(lines[j])] == LineValue(lines[j]).value
    decreases |lines|
  {
    if j == 0 {
      FieldsFirstLineWins(lines, acc);
    } else {
      FieldsStep(lines, acc);
      var acc' := acc[LineKey(lines[0]) := LineValue(lines[0]).value];
      var rest := lines[1..];
      assert rest[j - 1] == lines[j];
      forall i | j - 1 < i < |rest|
        ensures LineKey(rest[i]) != LineKey(rest[j - 1])
      {
        assert rest[i] == lines[i + 1];
      }
      FieldsLastWins(rest, acc', j - 1);
    }
  }

  /** The dictionary is empty exactly when no line is kept. */
  lemma ParseEmptyIff(raw: seq<string>)
    requires ParseSpec(raw).Ok?
    ensures ParseSpec(raw).value.1 == map[] <==> ParseSpec(raw).value.0 == []
  {
    var kept := KeptLines(raw);
    FieldsFromFacts(kept, map[]);
    if kept != [] {
      assert LineKey(kept[0]) in ParseSpec(raw).value.1;
    }
  }

  /** The parse succeeds exactly when every kept line holds `=`. */
  lemma ParseSucceedsIff(raw: seq<string>)
    ensures ParseSpec(raw).Ok? <==> forall s :: s in raw && IsDataLine(s) ==> '=' in s
  {
    FieldsFromFacts(KeptLines(raw), map[]);
  }

  /** On success the kept lines come back with the dictionary whose keys
      are those of the kept lines; a failure names a kept line of the
      input. */
  lemma ParseFields(raw: seq<string>)
    ensures ParseSpec(raw).Ok? ==> ParseSpec(raw).value.0 == KeptLines(raw)
    ensures ParseSpec(raw).Ok? ==> ParseSpec(raw).value.1.Keys == KeysOf(KeptLines(raw))
    ensures ParseSpec(raw).Err? ==>
      && ParseSpec(raw).error.MalformedLine?
      && IsDataLine(ParseSpec(raw).error.line)
      && ParseSpec(raw).error.line in raw
  {
    FieldsFromFacts(KeptLines(raw), map[]);
  }

  /** Each kept line followed by a newline: what `readlines()` gives back
      for a cache file written line by line with `line + '\n'`. */
  function WithNewlines(lines: seq<string>): (r: seq<string>)
    ensures |r| == |lines|
    ensures forall i :: 0 <= i < |lines| ==> r[i] == lines[i] + "\n"
    decreases |lines|
  {
    if |lines| == 0 then [] else [lines[0] + "\n"] + WithNewlines(lines[1..])
  }

  /** Appending a newline changes neither the key nor the value of a line. */
  lemma LineWithNewline(s: string)
    ensures LineValue(s + "\n") == LineValue(s)
    ensures '=' in s ==> LineKey(s + "\n") == LineKey(s)
  {
    var p := Split(s, '=');
    SplitSnoc(s, '\n', '=');
    SplitMany(s, '=');
    var q := Split(s + "\n", '=');
    assert '=' in s + "\n" <==> '=' in s;
    if |p| >= 2 {
      assert q[0] == p[0];
      if |p| == 2 {
        assert q[1] == p[1] + "\n";
        StripTrailingSpace(p[1], '\n');
      } else {
        assert q[1] == p[1];
      }
    }
  }

  /** A kept line stays kept with its newline, and is parsed the same. */
  lemma {:induction false} KeptWithNewlines(lines: seq<string>)
    requires forall i :: 0 <= i < |lines| ==> IsDataLine(lines[i])
    ensures KeptLines(WithNewlines(lines)) == WithNewlines(lines)
    decreases |lines|
  {
    if |lines| > 0 {
      assert WithNewlines(lines)[1..] == WithNewlines(lines[1..]);
      KeptWithNewlines(lines[1..]);
    }
  }

  lemma {:induction false} FieldsWithNewlines(lines: seq<string>, acc: Fields)
    ensures FieldsFrom(WithNewlines(lines), acc).Ok? == FieldsFrom(lines, acc).Ok?
    ensures FieldsFrom(lines, acc).Ok? ==> FieldsFrom(WithNewlines(lines), acc).value == FieldsFrom(lines, acc).value
    decreases |lines|
  {
    if |lines| > 0 {
      var w := WithNewlines(lines);
      assert w[0] == lines[0] + "\n";
      assert w[1..] == WithNewlines(lines[1..]);
      LineWithNewline(lines[0]);
      if '=' in lines[0] {
        FieldsWithNewlines(lines[1..], acc[LineKey(lines[0]) := LineValue(lines[0]).value]);
      }
    }
  }

  /** The lines text-mode `readlines()` gives for one piece of a written
      line that ends at a `\n`: universal newlines end a line at `\r` as
      well, and a `\r` right before the `\n` ends the same line. */
  function CrPieceLines(piece: string): (r: seq<string>)
    ensures |r| >= 1
  {
    var ps := Split(piece, '\r');
    WithNewlines(if |ps| > 1 && ps[|ps| - 1] == "" then ps[..|ps| - 1] else ps)
  }

  function CrPiecesLines(pieces: seq<string>): seq<string>
    decreases |pieces|
  {
    if |pieces| == 0 then [] else CrPieceLines(pieces[0]) + CrPiecesLines(pieces[1..])
  }

  /** What `readlines()` in text mode gives back for a file written with
      `fout.write(line + '\n')` for each line. */
  function ReadBack(lines: seq<string>): seq<string>
    decreases |lines|
  {
    if |lines| == 0 then [] else CrPiecesLines(Split(lines[0], '\n')) + ReadBack(lines[1..])
  }

  /** Lines without `\r` or `\n` come back as written, each with its
      newline. */
  lemma {:induction false} ReadBackPlain(lines: seq<string>)
    requires forall i :: 0 <= i < |lines| ==> '\r' !in lines[i] && '\n' !in lines[i]
    ensures ReadBack(lines) == WithNewlines(lines)
    decreases |lines|
  {
    if |lines| > 0 {
      var l := lines[0];
      SplitNone(l, '\n');
      SplitNone(l, '\r');
      assert CrPiecesLines([l]) == CrPieceLines(l) + CrPiecesLines([]);
      assert CrPieceLines(l) == [l + "\n"];
      ReadBackPlain(lines[1..]);
    }
  }

  lemma CrPieceExample()
    ensures CrPieceLines("k=x\ry=z") == ["k=x\n", "y=z\n"]
  {
    var l := "k=x\ry=z";
    assert Split(l, '\r') == ["k=x", "y=z"] by {
      assert l == "k=x" + ['\r'] + "y=z";
      SplitCons("k=x", "y=z", '\r');
      SplitNone("y=z", '\r');
    }
    var ps := Split(l, '\r');
    assert |ps| == 2 && ps[1] != "";
    var w := WithNewlines(["k=x", "y=z"]);
    assert w[0] == "k=x" + "\n" == "k=x\n";
    assert w[1] == "y=z" + "\n" == "y=z\n";
  }

  /** A `\r` inside a written line splits it in two when the file is read
      back: `k=x\ry=z` is written as one line and read as `k=x` and `y=z`. */
  lemma ReadBackSplitsAtCr()
    ensures ReadBack(["k=x\ry=z"]) == ["k=x\n", "y=z\n"]
  {
    var l := "k=x\ry=z";
    SplitNone(l, '\n');
    CrPieceExample();
    assert CrPiecesLines([l]) == CrPieceLines(l) + CrPiecesLines([]);
    assert ReadBack([l]) == CrPiecesLines([l]) + ReadBack([]);
  }

  /** The cache file written from the kept lines of a parse, when none of
      them holds `\r` or `\n`, reads back to the same dictionary. */
  lemma CachedCopyParsesSame(raw: seq<string>)
    requires ParseSpec(raw).Ok?
    requires forall s :: s in raw && IsDataLine(s) ==> '\r' !in s && '\n' !in s
    ensures ParseSpec(ReadBack(ParseSpec(raw).value.0)).Ok?
    ensures ParseSpec(ReadBack(ParseSpec(raw).value.0)).value.1 == ParseSpec(raw).value.1
  {
    var kept := KeptLines(raw);
    assert forall i :: 0 <= i < |kept| ==> kept[i] in kept;
    ReadBackPlain(kept);
    KeptWithNewlines(kept);
    FieldsWithNewlines(kept, map[]);
  }

  /** `fields` is what the loop builds from the kept lines `lines`. */
  ghost predicate IsParse(lines: seq<string>, fields: Fields)
  {
    && (forall i :: 0 <= i < |lines| ==> IsDataLine(lines[i]))
    && FieldsFrom(lines, map[]) == Ok(fields)
  }

  /** A file written line by line from the kept lines of a parse, none of
      them holding `\r` or `\n`, reads back to the same lines with
      newlines and the same dictionary. */
  lemma ReparseWritten(lines: seq<string>, fields: Fields)
    requires IsParse(lines, fields)
    requires forall i :: 0 <= i < |lines| ==> '\r' !in lines[i] && '\n' !in lines[i]
    ensures ParseSpec(ReadBack(lines)) == Ok((WithNewlines(lines), fields))
  {
    ReadBackPlain(lines);
    KeptWithNewlines(lines);
    FieldsWithNewlines(lines, map[]);
  }
}
