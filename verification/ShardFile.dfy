/** The directory of one attempt: written once, file by file, and read back only if its manifest is whole. */
module ShardFile {
  import opened Wrappers
  import opened Text

  /** A file of the directory; its content has one character for each byte. */
  datatype Entry = Entry(name: string, content: string)

  const MANIFEST := "output_sha256.tsv"
  const HEADER := ["path", "size", "sha256"]

  /** A digest as text, of fixed length, and what an interpretation record says of the normalized output, if
      readable. */
  datatype Codec = Codec(sha: string -> string, normalizedPresent: string -> Option<bool>)

  // ----- Lines and fields -----

  function Split(s: string, sep: char): (parts: seq<string>)
    ensures |parts| > 0
  {
    if s == [] then [[]]
    else
      var rest := Split(s[1..], sep);
      if s[0] == sep then [[]] + rest else [[s[0]] + rest[0]] + rest[1..]
  }

  function Join(parts: seq<string>, sep: char): string
    requires |parts| > 0
  {
    if |parts| == 1 then parts[0] else parts[0] + [sep] + Join(parts[1..], sep)
  }

  lemma {:induction false} SplitOne(part: string, sep: char)
    requires sep !in part
    ensures Split(part, sep) == [part]
  {
    if part != [] {
      SplitOne(part[1..], sep);
      assert part == [part[0]] + part[1..];
    }
  }

  lemma {:induction false} SplitCons(part: string, sep: char, rest: string)
    requires sep !in part
    ensures Split(part + [sep] + rest, sep) == [part] + Split(rest, sep)
  {
    var s := part + [sep] + rest;
    if part == [] {
      assert s[1..] == rest;
    } else {
      SplitCons(part[1..], sep, rest);
      assert s[1..] == part[1..] + [sep] + rest;
      assert part == [part[0]] + part[1..];
    }
  }

  /** Where a text of parts is cut off: inside part k, after j characters of it. */
  ghost predicate CutAt(parts: seq<string>, sep: char, n: nat, k: nat, j: nat)
    requires |parts| > 0
  {
    && k < |parts| && j <= |parts[k]| && n <= |Join(parts, sep)|
    && Split(Join(parts, sep)[..n], sep) == parts[..k] + [parts[k][..j]]
    && |Join(parts, sep)| - n >= |parts[k]| - j + (|parts| - 1 - k)
    && (k == |parts| - 1 ==> |Join(parts, sep)| - n == |parts[k]| - j)
    && (k == |parts| - 2 ==> |Join(parts, sep)| - n == |parts[k]| - j + 1 + |parts[k + 1]|)
  }

  lemma {:induction false} JoinLength(parts: seq<string>, sep: char)
    requires |parts| > 0
    ensures |Join(parts, sep)| >= |parts[0]| + |parts| - 1
  {
    if |parts| > 1 { JoinLength(parts[1..], sep); }
  }

  lemma {:induction false} CutInHead(parts: seq<string>, sep: char, n: nat)
    requires |parts| > 0 && n <= |parts[0]| && sep !in parts[0]
    ensures n <= |Join(parts, sep)| && CutAt(parts, sep, n, 0, n)
  {
    JoinLength(parts, sep);
    assert Join(parts, sep)[..n] == parts[0][..n];
    SplitOne(parts[0][..n], sep);
  }

  lemma {:induction false} CutInTail(parts: seq<string>, sep: char, n: nat, k: nat, j: nat)
    requires |parts| > 1 && sep !in parts[0] && CutAt(parts[1..], sep, n, k, j)
    ensures CutAt(parts, sep, |parts[0]| + 1 + n, k + 1, j)
  {
    var rest := Join(parts[1..], sep);
    assert Join(parts, sep)[..|parts[0]| + 1 + n] == parts[0] + [sep] + rest[..n];
    SplitCons(parts[0], sep, rest[..n]);
    assert [parts[0]] + parts[1..][..k] == parts[..k + 1];
  }

  lemma {:induction false} SplitPrefix(parts: seq<string>, sep: char, n: nat) returns (k: nat, j: nat)
    requires |parts| > 0 && n <= |Join(parts, sep)| && forall i :: 0 <= i < |parts| ==> sep !in parts[i]
    ensures CutAt(parts, sep, n, k, j)
  {
    if n <= |parts[0]| {
      k, j := 0, n;
      CutInHead(parts, sep, n);
    } else {
      k, j := SplitPrefix(parts[1..], sep, n - |parts[0]| - 1);
      CutInTail(parts, sep, n - |parts[0]| - 1, k, j);
      k := k + 1;
    }
  }

  lemma {:induction false} SplitJoin(parts: seq<string>, sep: char)
    requires |parts| > 0 && forall i :: 0 <= i < |parts| ==> sep !in parts[i]
    ensures Split(Join(parts, sep), sep) == parts
  {
    if |parts| == 1 {
      SplitOne(parts[0], sep);
    } else {
      SplitCons(parts[0], sep, Join(parts[1..], sep));
      SplitJoin(parts[1..], sep);
    }
  }

  // ----- Reading a directory -----

  function Names(dir: seq<Entry>): set<string> {
    set e | e in dir :: e.name
  }

  predicate Has(dir: seq<Entry>, name: string) {
    exists e :: e in dir && e.name == name
  }

  /** The content of a file of the directory. */
  function Content(dir: seq<Entry>, name: string): string {
    if dir == [] then "" else if dir[0].name == name then dir[0].content else Content(dir[1..], name)
  }

  const REQUIRED :=
    {"agent_task.snapshot.json", "model_profile.snapshot.redacted.json", "input_sha256.tsv", "events.jsonl",
                     "stderr.log", "final_output.json", "invocation_result.json", MANIFEST}
  const INTERPRETATION := "interpretation.json"
  const EXTENSION := {INTERPRETATION, "raw_final_output.bin"}
  const NORMALIZED := "normalized_output.bin"

  predicate AllowedNames(names: set<string>) {
    names == REQUIRED || names == REQUIRED + EXTENSION || names == REQUIRED + EXTENSION + {NORMALIZED}
  }

  function NonBlank(lines: seq<string>): seq<string> {
    if lines == [] then []
    else NonBlank(lines[..|lines| - 1]) + (if lines[|lines| - 1] == "" then [] else [lines[|lines| - 1]])
  }

  function Rows(text: string): seq<string> {
    NonBlank(Split(text, '\n')[1..])
  }

  function Header(text: string): seq<string> {
    Split(Split(text, '\n')[0], '\t')
  }

  function LastIndex(header: seq<string>, name: string): Option<nat> {
    if header == [] then None
    else if header[|header| - 1] == name then Some(|header| - 1) else LastIndex(header[..|header| - 1], name)
  }

  function Field(header: seq<string>, line: string, name: string): Option<string> {
    var (i, row) := (LastIndex(header, name), Split(line, '\t'));
    if i.Some? && i.value < |row| then Some(row[i.value]) else None
  }

  function ParseNat(s: string): Option<nat> {
    if s == [] || !('0' <= s[|s| - 1] <= '9') then None
    else
      var digit := s[|s| - 1] as int - '0' as int;
      if |s| == 1 then Some(digit)
      else
        var front := ParseNat(s[..|s| - 1]);
        if front.Some? then Some(10 * front.value + digit) else None
  }

  /** A row that names a file and gives its size and digest. */
  predicate RowMatches(dir: seq<Entry>, codec: Codec, header: seq<string>, line: string) {
    var (path, size, sha) := (Field(header, line, "path"), Field(header, line, "size"), Field(header, line, "sha256"));
    && path.Some? && path.value != MANIFEST && Has(dir, path.value) && size.Some? && sha.Some?
    && ParseNat(size.value) == Some(|Content(dir, path.value)|) && sha.value == codec.sha(Content(dir, path.value))
  }

  predicate Covered(dir: seq<Entry>, header: seq<string>, rows: seq<string>) {
    forall e :: e in dir && e.name != MANIFEST ==>
      exists i :: 0 <= i < |rows| && Field(header, rows[i], "path") == Some(e.name)
  }

  predicate InterpretationFits(dir: seq<Entry>, codec: Codec) {
    Has(dir, INTERPRETATION) ==> codec.normalizedPresent(Content(dir, INTERPRETATION)) == Some(Has(dir, NORMALIZED))
  }

  predicate RowsMatch(dir: seq<Entry>, codec: Codec, header: seq<string>, rows: seq<string>) {
    forall i :: 0 <= i < |rows| ==> RowMatches(dir, codec, header, rows[i])
  }

  predicate ManifestFits(dir: seq<Entry>, codec: Codec, header: seq<string>, rows: seq<string>) {
    |rows| == |Names(dir)| - 1 && Covered(dir, header, rows) && RowsMatch(dir, codec, header, rows)
  }

  /** The check of a directory before anything in it is believed. */
  predicate Verified(dir: seq<Entry>, codec: Codec) {
    var text := Content(dir, MANIFEST);
    && AllowedNames(Names(dir)) && ManifestFits(dir, codec, Header(text), Rows(text)) && InterpretationFits(dir, codec)
  }

  // ----- Writing a directory -----

  predicate ByName(a: Entry, b: Entry) {
    Le(a.name, b.name)
  }

  function Fields(e: Entry, codec: Codec): seq<string> {
    [e.name, Decimal(|e.content|), codec.sha(e.content)]
  }

  function Lines(entries: seq<Entry>, codec: Codec): (r: seq<string>)
    ensures |r| == |entries| && forall i :: 0 <= i < |r| ==> r[i] == Join(Fields(entries[i], codec), '\t')
  {
    seq(|entries|, i requires 0 <= i < |entries| => Join(Fields(entries[i], codec), '\t'))
  }

  function Parts(entries: seq<Entry>, codec: Codec): seq<string> {
    [Join(HEADER, '\t')] + Lines(SortBy(entries, ByName), codec) + [""]
  }

  function Manifest(entries: seq<Entry>, codec: Codec): string {
    Join(Parts(entries, codec), '\n')
  }

  /** All files of an attempt, in the order they are written; the manifest is the last. */
  function Everything(entries: seq<Entry>, codec: Codec): seq<Entry> {
    entries + [Entry(MANIFEST, Manifest(entries, codec))]
  }

  /** What is on disk of one file after so many steps, a step being its creation or one byte of it. */
  function Cut(e: Entry, steps: nat): seq<Entry> {
    if steps == 0 then [] else if steps <= |e.content| then [Entry(e.name, e.content[..steps - 1])] else [e]
  }

  function Steps(files: seq<Entry>): nat {
    if files == [] then 0 else Steps(files[..|files| - 1]) + 1 + |files[|files| - 1].content|
  }

  /** What is on disk when files are written one after the other. */
  function Disk(files: seq<Entry>, steps: nat): seq<Entry> {
    if files == [] then []
    else
      var front, last := files[..|files| - 1], files[|files| - 1];
      if steps <= Steps(front) then Disk(front, steps) else front + Cut(last, steps - Steps(front))
  }

  // ----- What a cut-off manifest says -----

  predicate Clean(s: string) {
    s != "" && '\t' !in s && '\n' !in s
  }

  ghost predicate GoodCodec(codec: Codec) {
    forall c :: |codec.sha(c)| == 64 && Clean(codec.sha(c))
  }

  predicate DistinctNames(entries: seq<Entry>) {
    forall i, j :: 0 <= i < j < |entries| ==> entries[i].name != entries[j].name
  }

  /** What a writer is asked to write: a known set of files, each once. */
  ghost predicate Writable(entries: seq<Entry>, codec: Codec) {
    && GoodCodec(codec) && AllowedNames(Names(entries) + {MANIFEST}) && !Has(entries, MANIFEST)
    && (forall e :: e in entries ==> Clean(e.name))
    && DistinctNames(entries)
  }

  lemma {:induction false} DecimalReads(n: nat)
    ensures ParseNat(Decimal(n)) == Some(n) && Clean(Decimal(n))
  {
    if n >= 10 {
      DecimalReads(n / 10);
      assert Decimal(n)[..|Decimal(n)| - 1] == Decimal(n / 10);
    }
  }

  lemma {:induction false} NonBlankSnoc(lines: seq<string>, last: string)
    ensures NonBlank(lines + [last]) == NonBlank(lines) + (if last == "" then [] else [last])
  {
    assert (lines + [last])[..|lines|] == lines;
  }

  lemma {:induction false} NonBlankAll(lines: seq<string>)
    requires forall i :: 0 <= i < |lines| ==> lines[i] != ""
    ensures NonBlank(lines) == lines
  {
    if lines != [] {
      NonBlankAll(lines[..|lines| - 1]);
      assert lines == lines[..|lines| - 1] + [lines[|lines| - 1]];
    }
  }

  ghost predicate LinesOk(lines: seq<string>) {
    forall i :: 0 <= i < |lines| ==> lines[i] != "" && '\n' !in lines[i]
  }

  function Ended(head: string, lines: seq<string>): string {
    Join([head] + lines + [""], '\n')
  }

  lemma {:induction false} RowsOfPieces(head: string, lines: seq<string>, k: nat, j: nat)
    requires LinesOk(lines) && k < |lines| + 2 && j <= |([head] + lines + [""])[k]|
    ensures var parts := [head] + lines + [""];
      NonBlank((parts[..k] + [parts[k][..j]])[1..]) ==
        if k == 0 then [] else lines[..k - 1] + (if k == |lines| + 1 || j == 0 then [] else [lines[k - 1][..j]])
  {
    var parts := [head] + lines + [""];
    var pieces := parts[..k] + [parts[k][..j]];
    if k == 0 {
      assert pieces[1..] == [];
    } else {
      assert pieces[1..] == lines[..k - 1] + [parts[k][..j]];
      NonBlankAll(lines[..k - 1]);
      NonBlankSnoc(lines[..k - 1], parts[k][..j]);
      assert k <= |lines| ==> parts[k] == lines[k - 1];
    }
  }

  /** Cut off after n characters, a text of a header and lines, each ended, loses a row, or has its last row truncated,
      or lacks at most the final line end. */
  lemma {:induction false} RowsOfCut(head: string, lines: seq<string>, n: nat)
    requires '\n' !in head && LinesOk(lines) && lines != [] && n <= |Ended(head, lines)|
    ensures var (rows, last) := (Rows(Ended(head, lines)[..n]), |lines| - 1);
      || (n + 1 >= |Ended(head, lines)| && rows == lines && Split(Ended(head, lines)[..n], '\n')[0] == head)
      || (n + 1 < |Ended(head, lines)|
        && (|rows| != |lines| || (rows[last] < lines[last] && Split(Ended(head, lines)[..n], '\n')[0] == head)))
  {
    var parts := [head] + lines + [""];
    var k, j := SplitPrefix(parts, '\n', n);
    RowsOfPieces(head, lines, k, j);
    if k == |lines| + 1 {
      assert lines[..|lines|] == lines;
    } else if k == |lines| {
      var last := |lines| - 1;
      assert parts[k] == lines[last] && lines[..last] + [lines[last]] == lines;
      if j == |lines[last]| { assert lines[last][..j] == lines[last]; }
    }
  }

  lemma {:induction false} HeaderFields(line: string)
    requires |Split(line, '\t')| <= 3
    ensures var row := Split(line, '\t');
      && Field(HEADER, line, "path") == Some(row[0])
      && Field(HEADER, line, "size") == (if |row| > 1 then Some(row[1]) else None)
      && Field(HEADER, line, "sha256") == if |row| > 2 then Some(row[2]) else None
  {
    assert HEADER[..2] == ["path", "size"] && HEADER[..2][..1] == ["path"];
    assert "path"[0] != "sha256"[0] && "path"[0] != "size"[0] && "size"[1] != "sha256"[1];
    assert LastIndex(["path"], "path") == Some(0);
    assert LastIndex(["path", "size"], "path") == Some(0) && LastIndex(["path", "size"], "size") == Some(1) by {
      assert ["path", "size"][..1] == ["path"];
    }
  }

  lemma {:induction false} JoinThree(parts: seq<string>, sep: char)
    requires |parts| == 3
    ensures Join(parts, sep) == parts[0] + [sep] + (parts[1] + [sep] + parts[2])
  {
    assert parts[1..][1..] == [parts[2]];
    assert Join(parts[1..], sep) == parts[1] + [sep] + parts[2];
  }

  lemma {:induction false} HeaderReads()
    ensures '\n' !in Join(HEADER, '\t') && Split(Join(HEADER, '\t'), '\t') == HEADER
  {
    assert forall i :: 0 <= i < 3 ==> '\t' !in HEADER[i];
    SplitJoin(HEADER, '\t');
    JoinThree(HEADER, '\t');
  }

  lemma {:induction false} FieldsClean(e: Entry, codec: Codec)
    requires GoodCodec(codec) && Clean(e.name)
    ensures forall i :: 0 <= i < 3 ==> Clean(Fields(e, codec)[i])
    ensures var line := Join(Fields(e, codec), '\t'); line != "" && '\n' !in line
  {
    DecimalReads(|e.content|);
    var f := Fields(e, codec);
    JoinThree(f, '\t');
  }

  lemma {:induction false} WholeRow(e: Entry, codec: Codec)
    requires GoodCodec(codec) && Clean(e.name)
    ensures var line := Join(Fields(e, codec), '\t');
      && Field(HEADER, line, "path") == Some(e.name) && Field(HEADER, line, "size") == Some(Decimal(|e.content|))
      && Field(HEADER, line, "sha256") == Some(codec.sha(e.content))
  {
    FieldsClean(e, codec);
    SplitJoin(Fields(e, codec), '\t');
    HeaderFields(Join(Fields(e, codec), '\t'));
  }

  /** A truncated row lacks its digest, or has too short a one. */
  lemma {:induction false} TruncatedRow(dir: seq<Entry>, e: Entry, codec: Codec, line: string)
    requires GoodCodec(codec) && Clean(e.name) && line < Join(Fields(e, codec), '\t')
    ensures !RowMatches(dir, codec, HEADER, line)
  {
    FieldsClean(e, codec);
    var f := Fields(e, codec);
    var k, j := SplitPrefix(f, '\t', |line|);
    assert line == Join(f, '\t')[..|line|];
    HeaderFields(line);
    var sha := Field(HEADER, line, "sha256");
    assert sha.Some? ==> k == 2 && |sha.value| < 64;
  }

  // ----- Looking up files -----

  lemma {:induction false} ContentAt(dir: seq<Entry>, k: nat)
    requires k < |dir| && DistinctNames(dir)
    ensures Content(dir, dir[k].name) == dir[k].content
  {
    if k > 0 {
      assert dir[1..][k - 1] == dir[k];
      ContentAt(dir[1..], k - 1);
    }
  }

  lemma {:induction false} NamesCount(dir: seq<Entry>)
    requires DistinctNames(dir)
    ensures |Names(dir)| == |dir|
  {
    if dir != [] {
      var front, last := dir[..|dir| - 1], dir[|dir| - 1];
      NamesCount(front);
      assert Names(dir) == Names(front) + {last.name};
    }
  }

  /** The directory with all artifacts written and some text for its manifest. */
  function Whole(entries: seq<Entry>, text: string): seq<Entry> {
    entries + [Entry(MANIFEST, text)]
  }

  ghost predicate Lookups(entries: seq<Entry>, text: string) {
    var dir := Whole(entries, text);
    && Names(dir) == Names(entries) + {MANIFEST} && |Names(dir)| == |entries| + 1 && Content(dir, MANIFEST) == text
    && (forall e :: e in entries ==> Has(dir, e.name) && Content(dir, e.name) == e.content && e.name != MANIFEST)
    && (forall e :: e in dir && e.name != MANIFEST ==> e in entries)
  }

  lemma {:induction false} WholeLookups(entries: seq<Entry>, codec: Codec, text: string)
    requires Writable(entries, codec)
    ensures Lookups(entries, text)
  {
    var dir := Whole(entries, text);
    DistinctWhole(entries, text);
    NamesCount(dir);
    ContentAt(dir, |entries|);
    forall e | e in entries ensures Has(dir, e.name) && Content(dir, e.name) == e.content && e.name != MANIFEST {
      var k :| 0 <= k < |entries| && entries[k] == e;
      assert dir[k] == e;
      ContentAt(dir, k);
    }
    assert Names(dir) == Names(entries) + {MANIFEST};
  }

  lemma {:induction false} DistinctWhole(entries: seq<Entry>, text: string)
    requires !Has(entries, MANIFEST) && DistinctNames(entries)
    ensures var dir := Whole(entries, text); DistinctNames(dir)
    ensures Whole(entries, text)[|entries|] == Entry(MANIFEST, text)
  {
    forall i | 0 <= i < |entries| ensures entries[i].name != MANIFEST { assert entries[i] in entries; }
  }

  // ----- The theorem -----

  lemma {:induction false} LinesAreOk(entries: seq<Entry>, codec: Codec)
    requires GoodCodec(codec) && forall e :: e in entries ==> Clean(e.name)
    ensures LinesOk(Lines(entries, codec))
  {
    forall i | 0 <= i < |entries| ensures Lines(entries, codec)[i] != "" && '\n' !in Lines(entries, codec)[i] {
      FieldsClean(entries[i], codec);
    }
  }

  lemma {:induction false} WholeRowMatches(dir: seq<Entry>, e: Entry, codec: Codec)
    requires GoodCodec(codec) && Clean(e.name) && e.name != MANIFEST && Has(dir, e.name)
    requires Content(dir, e.name) == e.content
    ensures RowMatches(dir, codec, HEADER, Join(Fields(e, codec), '\t'))
  {
    WholeRow(e, codec);
    DecimalReads(|e.content|);
  }

  /** The rows of the manifest, whole, describe the directory. */
  lemma {:induction false} WholeManifestFits(entries: seq<Entry>, sorted: seq<Entry>, codec: Codec, text: string)
    requires Writable(entries, codec) && |sorted| == |entries| && forall e :: e in sorted <==> e in entries
    ensures ManifestFits(Whole(entries, text), codec, HEADER, Lines(sorted, codec))
  {
    WholeLookups(entries, codec, text);
    SortedCovers(Whole(entries, text), sorted, codec);
    SortedMatches(Whole(entries, text), sorted, codec);
  }

  lemma {:induction false} SortedMatches(dir: seq<Entry>, sorted: seq<Entry>, codec: Codec)
    requires GoodCodec(codec)
    requires forall e :: e in sorted ==>
      Clean(e.name) && e.name != MANIFEST && Has(dir, e.name) && Content(dir, e.name) == e.content
    ensures RowsMatch(dir, codec, HEADER, Lines(sorted, codec))
  {
    forall i | 0 <= i < |sorted| ensures RowMatches(dir, codec, HEADER, Lines(sorted, codec)[i]) {
      assert sorted[i] in sorted;
      WholeRowMatches(dir, sorted[i], codec);
    }
  }

  lemma {:induction false} SortedCovers(dir: seq<Entry>, sorted: seq<Entry>, codec: Codec)
    requires GoodCodec(codec) && forall e :: e in dir && e.name != MANIFEST ==> e in sorted && Clean(e.name)
    ensures Covered(dir, HEADER, Lines(sorted, codec))
  {
    var rows := Lines(sorted, codec);
    forall e | e in dir && e.name != MANIFEST
      ensures exists i :: 0 <= i < |rows| && Field(HEADER, rows[i], "path") == Some(e.name) {
      var i :| 0 <= i < |sorted| && sorted[i] == e;
      WholeRow(sorted[i], codec);
      assert Field(HEADER, rows[i], "path") == Some(e.name);
    }
  }

  lemma {:induction false} Misfits(dir: seq<Entry>, last: Entry, codec: Codec, count: nat, header: seq<string>,
                                   rows: seq<string>)
    requires GoodCodec(codec) && Clean(last.name) && |Names(dir)| == count + 1
    requires |rows| != count || (rows != [] && rows[|rows| - 1] < Join(Fields(last, codec), '\t') && header == HEADER)
    ensures !ManifestFits(dir, codec, header, rows)
  {
    if |rows| == count { TruncatedRow(dir, last, codec, rows[|rows| - 1]); }
  }

  /** A manifest either has all its rows, or fewer, or a last one truncated. */
  ghost predicate Tells(sorted: seq<Entry>, codec: Codec, header: seq<string>, rows: seq<string>, whole: bool)
    requires sorted != []
  {
    if whole then header == HEADER && rows == Lines(sorted, codec)
    else
      var last := |sorted| - 1;
      |rows| != |sorted| || (rows[last] < Join(Fields(sorted[last], codec), '\t') && header == HEADER)
  }

  lemma {:induction false} EndedTells(sorted: seq<Entry>, codec: Codec, head: string, n: nat)
    requires GoodCodec(codec) && sorted != [] && forall e :: e in sorted ==> Clean(e.name)
    requires head == Join(HEADER, '\t') && n <= |Ended(head, Lines(sorted, codec))|
    ensures var whole := Ended(head, Lines(sorted, codec));
      Tells(sorted, codec, Header(whole[..n]), Rows(whole[..n]), n + 1 >= |whole|)
  {
    LinesAreOk(sorted, codec);
    HeaderReads();
    RowsOfCut(head, Lines(sorted, codec), n);
  }

  lemma {:induction false} VerifiedIs(entries: seq<Entry>, codec: Codec, text: string)
    requires Writable(entries, codec)
    ensures var dir := Whole(entries, text);
      && (Verified(dir, codec) <==>
        ManifestFits(dir, codec, Header(text), Rows(text)) && InterpretationFits(dir, codec))
      && |Names(dir)| == |entries| + 1
  {
    WholeLookups(entries, codec, text);
  }

  lemma {:induction false} ToldFits(entries: seq<Entry>, sorted: seq<Entry>, codec: Codec, text: string,
                                    header: seq<string>, rows: seq<string>, whole: bool)
    requires Writable(entries, codec) && |sorted| == |entries| > 0 && forall e :: e in sorted <==> e in entries
    requires Tells(sorted, codec, header, rows, whole) && |Names(Whole(entries, text))| == |entries| + 1
    ensures ManifestFits(Whole(entries, text), codec, header, rows) <==> whole
  {
    if whole {
      WholeManifestFits(entries, sorted, codec, text);
    } else {
      assert sorted[|sorted| - 1] in sorted;
      Misfits(Whole(entries, text), sorted[|sorted| - 1], codec, |entries|, header, rows);
    }
  }

  /** With everything but the manifest in place, the directory is believed exactly when the manifest lacks nothing, or
      nothing but its final line end. */
  lemma {:induction false} CutManifest(entries: seq<Entry>, codec: Codec, n: nat)
    requires Writable(entries, codec) && n <= |Manifest(entries, codec)| && entries != []
    ensures var dir := Whole(entries, Manifest(entries, codec)[..n]);
      Verified(dir, codec) <==> n + 1 >= |Manifest(entries, codec)| && InterpretationFits(dir, codec)
  {
    var sorted := SortBy(entries, ByName);
    SortKeepsAll(entries, ByName);
    var text := Manifest(entries, codec)[..n];
    EndedTells(sorted, codec, Join(HEADER, '\t'), n);
    VerifiedIs(entries, codec, text);
    ToldFits(entries, sorted, codec, text, Header(text), Rows(text), n + 1 >= |Manifest(entries, codec)|);
  }

  lemma {:induction false} DiskSnoc(front: seq<Entry>, last: Entry, steps: nat)
    ensures Steps(front + [last]) == Steps(front) + 1 + |last.content|
    ensures Disk(front + [last], steps) == if steps <= Steps(front) then Disk(front, steps)
      else front + Cut(last, steps - Steps(front))
  {
    assert (front + [last])[..|front|] == front;
  }

  lemma {:induction false} DiskNames(files: seq<Entry>, steps: nat)
    ensures forall e :: e in Disk(files, steps) ==> Has(files, e.name)
  {
    if files != [] {
      var front, last := files[..|files| - 1], files[|files| - 1];
      DiskNames(front, steps);
      assert forall e :: e in front ==> e in files;
      assert last in files;
    }
  }

  lemma {:induction false} NoManifestFails(dir: seq<Entry>, entries: seq<Entry>, codec: Codec)
    requires !Has(entries, MANIFEST) && forall e :: e in dir ==> Has(entries, e.name)
    ensures !Verified(dir, codec)
  {
    assert MANIFEST !in Names(dir);
    assert MANIFEST in REQUIRED;
  }

  lemma {:induction false} StoppedInManifest(entries: seq<Entry>, codec: Codec, n: nat)
    requires Writable(entries, codec) && n <= |Manifest(entries, codec)|
    ensures var dir := Whole(entries, Manifest(entries, codec)[..n]);
      && (Verified(dir, codec) <==>
        n + 1 >= |Manifest(entries, codec)| && InterpretationFits(Everything(entries, codec), codec))
      && |dir| == |entries| + 1 && dir[..|entries|] == entries && dir[|entries|].content <= Manifest(entries, codec)
  {
    SomeEntries(entries);
    CutManifest(entries, codec, n);
    SameInterpretation(entries, codec, Manifest(entries, codec)[..n], Manifest(entries, codec));
  }

  /** However far the writer got before it was stopped, the directory is believed only if at most the last byte of
      all is missing, and then every artifact in it is the one written, whole. */
  lemma {:induction false} CrashIsSafe(entries: seq<Entry>, codec: Codec, steps: nat)
    requires Writable(entries, codec)
    ensures var (files, dir) := (Everything(entries, codec), Disk(Everything(entries, codec), steps));
      && (Verified(dir, codec) <==> steps + 1 >= Steps(files) && InterpretationFits(files, codec))
      && (Verified(dir, codec) ==>
        |dir| == |files| && dir[..|entries|] == entries && dir[|entries|].content <= Manifest(entries, codec))
  {
    var manifest := Manifest(entries, codec);
    DiskSnoc(entries, Entry(MANIFEST, manifest), steps);
    var dir := Disk(Everything(entries, codec), steps);
    if steps <= Steps(entries) {
      ManifestNotEmpty(entries, codec);
      DiskNames(entries, steps);
      NoManifestFails(dir, entries, codec);
    } else {
      var left := steps - Steps(entries);
      var n := if left <= |manifest| then left - 1 else |manifest|;
      assert manifest[..|manifest|] == manifest;
      assert dir == Whole(entries, manifest[..n]);
      StoppedInManifest(entries, codec, n);
    }
  }

  lemma {:induction false} SomeEntries(entries: seq<Entry>)
    requires AllowedNames(Names(entries) + {MANIFEST})
    ensures entries != []
  {
    assert "events.jsonl" in REQUIRED && "events.jsonl"[0] != MANIFEST[0];
  }

  lemma {:induction false} ManifestNotEmpty(entries: seq<Entry>, codec: Codec)
    ensures |Manifest(entries, codec)| > 1
  {
    JoinLength(Parts(entries, codec), '\n');
    JoinThree(HEADER, '\t');
  }

  lemma {:induction false} SameInterpretation(entries: seq<Entry>, codec: Codec, text: string, other: string)
    requires Writable(entries, codec)
    ensures InterpretationFits(Whole(entries, text), codec) <==> InterpretationFits(Whole(entries, other), codec)
  {
    WholeLookups(entries, codec, text);
    WholeLookups(entries, codec, other);
  }

  // ----- A believed directory is what its manifest says -----

  function Paths(header: seq<string>, rows: seq<string>): (r: seq<Option<string>>)
    ensures |r| == |rows| && forall i :: 0 <= i < |r| ==> r[i] == Field(header, rows[i], "path")
  {
    seq(|rows|, i requires 0 <= i < |rows| => Field(header, rows[i], "path"))
  }

  lemma {:induction false} Distinctness<T(!new)>(s: seq<T>)
    ensures |set x | x in s| <= |s|
    ensures |set x | x in s| == |s| <==> forall i, j :: 0 <= i < j < |s| ==> s[i] != s[j]
  {
    if s != [] {
      var front, last := s[..|s| - 1], s[|s| - 1];
      Distinctness(front);
      var (all, some) := (set x | x in s, set x | x in front);
      assert s == front + [last];
      assert all == some + {last};
      if last in some {
        assert all == some;
        var i :| 0 <= i < |front| && front[i] == last;
        assert s[i] == s[|s| - 1];
      }
    }
  }

  /** Every file but the manifest has exactly one row, and every row gives the size and the digest of such a file. */
  ghost predicate OneRowPerFile(dir: seq<Entry>, codec: Codec, header: seq<string>, rows: seq<string>) {
    && (forall name :: name in Names(dir) && name != MANIFEST ==>
          exists i :: 0 <= i < |rows| && Field(header, rows[i], "path") == Some(name))
    && (forall i, j :: 0 <= i < j < |rows| ==> Field(header, rows[i], "path") != Field(header, rows[j], "path"))
    && (forall i :: 0 <= i < |rows| ==> Describes(dir, codec, header, rows[i]))
  }

  ghost predicate Describes(dir: seq<Entry>, codec: Codec, header: seq<string>, line: string) {
    exists name, size, sha :: name in Names(dir) && name != MANIFEST
      && Field(header, line, "path") == Some(name)
      && Field(header, line, "size") == Some(size) && ParseNat(size) == Some(|Content(dir, name)|)
      && Field(header, line, "sha256") == Some(sha) && sha == codec.sha(Content(dir, name))
  }

  lemma {:induction false} DescribesIffMatches(dir: seq<Entry>, codec: Codec, header: seq<string>, line: string)
    ensures Describes(dir, codec, header, line) <==> RowMatches(dir, codec, header, line)
  {
    if RowMatches(dir, codec, header, line) {
      var (path, size, sha) := (Field(header, line, "path"), Field(header, line, "size"),
                                Field(header, line, "sha256"));
      assert path.value in Names(dir) && size == Some(size.value) && sha == Some(sha.value);
    }
  }

  lemma {:induction false} CoveredMeans(dir: seq<Entry>, header: seq<string>, rows: seq<string>)
    ensures Covered(dir, header, rows) <==> forall name :: name in Names(dir) && name != MANIFEST ==>
              exists i :: 0 <= i < |rows| && Field(header, rows[i], "path") == Some(name)
  {
    if Covered(dir, header, rows) {
      forall name | name in Names(dir) && name != MANIFEST
        ensures exists i :: 0 <= i < |rows| && Field(header, rows[i], "path") == Some(name)
      {
        var e :| e in dir && e.name == name;
      }
    }
    assert forall e :: e in dir ==> e.name in Names(dir);
  }

  /** The manifest fits exactly when it has one row for each file. */
  lemma {:induction false} FitsIffOneRowPerFile(dir: seq<Entry>, codec: Codec, header: seq<string>, rows: seq<string>)
    requires MANIFEST in Names(dir)
    ensures ManifestFits(dir, codec, header, rows) <==> OneRowPerFile(dir, codec, header, rows)
  {
    forall i | 0 <= i < |rows| ensures Describes(dir, codec, header, rows[i]) <==>
      RowMatches(dir, codec, header, rows[i])
    {
      DescribesIffMatches(dir, codec, header, rows[i]);
    }
    CoveredMeans(dir, header, rows);
    if Covered(dir, header, rows) && RowsMatch(dir, codec, header, rows) {
      RowsCountFiles(dir, codec, header, rows);
    }
  }

  lemma {:induction false} RowsCountFiles(dir: seq<Entry>, codec: Codec, header: seq<string>, rows: seq<string>)
    requires MANIFEST in Names(dir) && Covered(dir, header, rows) && RowsMatch(dir, codec, header, rows)
    ensures |rows| == |Names(dir)| - 1 <==>
            forall i, j :: 0 <= i < j < |rows| ==> Field(header, rows[i], "path") != Field(header, rows[j], "path")
  {
    var paths := Paths(header, rows);
    Distinctness(paths);
    FilesHavePaths(dir, header, rows);
    PathsNameFiles(dir, codec, header, rows);
    Wrapped(Names(dir) - {MANIFEST}, set x | x in paths);
  }

  lemma {:induction false} FilesHavePaths(dir: seq<Entry>, header: seq<string>, rows: seq<string>)
    requires Covered(dir, header, rows)
    ensures forall name :: name in Names(dir) - {MANIFEST} ==> Some(name) in Paths(header, rows)
  {
    CoveredMeans(dir, header, rows);
    forall name | name in Names(dir) - {MANIFEST} ensures Some(name) in Paths(header, rows) {
      var i :| 0 <= i < |rows| && Field(header, rows[i], "path") == Some(name);
      assert Paths(header, rows)[i] == Some(name);
    }
  }

  lemma {:induction false} PathsNameFiles(dir: seq<Entry>, codec: Codec, header: seq<string>, rows: seq<string>)
    requires RowsMatch(dir, codec, header, rows)
    ensures forall x :: x in Paths(header, rows) ==> x.Some? && x.value in Names(dir) - {MANIFEST}
  {
    var paths := Paths(header, rows);
    forall x | x in paths ensures x.Some? && x.value in Names(dir) - {MANIFEST} {
      var i :| 0 <= i < |paths| && paths[i] == x;
      assert RowMatches(dir, codec, header, rows[i]);
    }
  }

  lemma {:induction false} Wrapped(names: set<string>, options: set<Option<string>>)
    requires forall name :: name in names ==> Some(name) in options
    requires forall x :: x in options ==> x.Some? && x.value in names
    ensures |names| == |options|
  {
    if names == {} {
      assert options == {};
    } else {
      var name :| name in names;
      Wrapped(names - {name}, options - {Some(name)});
      assert options == options - {Some(name)} + {Some(name)};
    }
  }

  /** Two directories that fit the same manifest have the same files, of the same sizes and digests. */
  lemma {:induction false} SameRowsSameFiles(a: seq<Entry>, b: seq<Entry>, codec: Codec, header: seq<string>,
                                             rows: seq<string>)
    requires ManifestFits(a, codec, header, rows) && ManifestFits(b, codec, header, rows)
    requires MANIFEST in Names(a) && MANIFEST in Names(b)
    ensures Names(a) == Names(b)
    ensures forall name :: name in Names(a) && name != MANIFEST ==>
      |Content(a, name)| == |Content(b, name)| && codec.sha(Content(a, name)) == codec.sha(Content(b, name))
  {
    CoveredMeans(a, header, rows);
    CoveredMeans(b, header, rows);
    forall name | name in Names(a) && name != MANIFEST
      ensures name in Names(b) && |Content(a, name)| == |Content(b, name)|
      ensures codec.sha(Content(a, name)) == codec.sha(Content(b, name))
    {
      var i :| 0 <= i < |rows| && Field(header, rows[i], "path") == Some(name);
      assert RowMatches(a, codec, header, rows[i]) && RowMatches(b, codec, header, rows[i]);
    }
    forall name | name in Names(b) ensures name in Names(a) {
      if name != MANIFEST {
        var i :| 0 <= i < |rows| && Field(header, rows[i], "path") == Some(name);
        assert RowMatches(a, codec, header, rows[i]);
      }
    }
  }

  lemma {:induction false} AllowedHaveManifest(dir: seq<Entry>)
    requires AllowedNames(Names(dir))
    ensures MANIFEST in Names(dir)
  {
    assert MANIFEST in REQUIRED;
  }

  /** A directory is believed exactly when it has one of the three sets of files, its manifest has one row with size and
      digest for each of them, and its interpretation record says whether there is a normalized output. */
  lemma {:induction false} BelievedIffDescribed(dir: seq<Entry>, codec: Codec)
    ensures var text := Content(dir, MANIFEST);
      Verified(dir, codec) <==>
        && (Names(dir) == REQUIRED || Names(dir) == REQUIRED + {INTERPRETATION, "raw_final_output.bin"}
            || Names(dir) == REQUIRED + {INTERPRETATION, "raw_final_output.bin", NORMALIZED})
        && OneRowPerFile(dir, codec, Header(text), Rows(text))
        && (INTERPRETATION in Names(dir) ==>
              codec.normalizedPresent(Content(dir, INTERPRETATION)) == Some(NORMALIZED in Names(dir)))
  {
    var text := Content(dir, MANIFEST);
    if AllowedNames(Names(dir)) {
      AllowedHaveManifest(dir);
      FitsIffOneRowPerFile(dir, codec, Header(text), Rows(text));
    }
    assert REQUIRED + EXTENSION + {NORMALIZED} == REQUIRED + {INTERPRETATION, "raw_final_output.bin", NORMALIZED};
  }

  /** A field is read from the last column of its name. */
  lemma {:induction false} FieldIsInTheLastColumn(header: seq<string>, line: string, name: string, value: string)
    ensures Field(header, line, name) == Some(value) <==>
            exists i :: 0 <= i < |header| && header[i] == name && (forall k :: i < k < |header| ==> header[k] != name)
              && i < |Split(line, '\t')| && Split(line, '\t')[i] == value
  {
    LastIndexIs(header, name);
  }

  lemma {:induction false} LastIndexIs(header: seq<string>, name: string)
    ensures var i := LastIndex(header, name);
      if i.None? then name !in header
      else i.value < |header| && header[i.value] == name && forall k :: i.value < k < |header| ==> header[k] != name
  {
    if header != [] { LastIndexIs(header[..|header| - 1], name); }
  }

  /** A believed directory is determined by its manifest: another one believed under the same manifest has the same
      files, with the same contents unless two different contents share a digest. */
  lemma {:induction false} ManifestDetermines(a: seq<Entry>, b: seq<Entry>, codec: Codec)
    requires Verified(a, codec) && Verified(b, codec) && Content(a, MANIFEST) == Content(b, MANIFEST)
    ensures Names(a) == Names(b)
    ensures forall name :: name in Names(a) ==>
      |Content(a, name)| == |Content(b, name)| && codec.sha(Content(a, name)) == codec.sha(Content(b, name))
  {
    AllowedHaveManifest(a);
    AllowedHaveManifest(b);
    var text := Content(a, MANIFEST);
    SameRowsSameFiles(a, b, codec, Header(text), Rows(text));
  }

  lemma {:induction false} WrittenTells(entries: seq<Entry>, codec: Codec)
    requires Writable(entries, codec)
    ensures var (sorted, text) := (SortBy(entries, ByName), Manifest(entries, codec));
      && sorted != [] && |sorted| == |entries| && (forall e :: e in sorted <==> e in entries)
      && Tells(sorted, codec, Header(text), Rows(text), true)
  {
    var text := Manifest(entries, codec);
    SomeEntries(entries);
    SortKeepsAll(entries, ByName);
    EndedTells(SortBy(entries, ByName), codec, Join(HEADER, '\t'), |text|);
    assert text[..|text|] == text;
  }

  lemma {:induction false} WrittenFits(entries: seq<Entry>, codec: Codec)
    requires Writable(entries, codec)
    ensures var text := Manifest(entries, codec);
      ManifestFits(Everything(entries, codec), codec, Header(text), Rows(text))
    ensures Lookups(entries, Manifest(entries, codec))
  {
    var sorted, text := SortBy(entries, ByName), Manifest(entries, codec);
    WrittenTells(entries, codec);
    WholeLookups(entries, codec, text);
    ToldFits(entries, sorted, codec, text, Header(text), Rows(text), true);
  }

  /** The same files with the same contents fit the same rows. */
  lemma {:induction false} SameFilesFit(a: seq<Entry>, b: seq<Entry>, codec: Codec, header: seq<string>,
                                        rows: seq<string>)
    requires ManifestFits(a, codec, header, rows) && Names(a) == Names(b)
    requires forall name :: name in Names(a) && name != MANIFEST ==> Content(a, name) == Content(b, name)
    ensures ManifestFits(b, codec, header, rows)
  {
    CoveredMeans(a, header, rows);
    CoveredMeans(b, header, rows);
    forall i | 0 <= i < |rows| ensures RowMatches(b, codec, header, rows[i]) {
      assert RowMatches(a, codec, header, rows[i]);
      var path := Field(header, rows[i], "path");
      assert path.value in Names(a) && path.value in Names(b);
    }
  }

  /** No change of a written artifact goes unseen by its digest. */
  ghost predicate DigestsTell(entries: seq<Entry>, dir: seq<Entry>, codec: Codec) {
    forall e :: e in entries && codec.sha(Content(dir, e.name)) == codec.sha(e.content) ==>
      Content(dir, e.name) == e.content
  }

  /** Whatever became of a written directory, as long as its manifest is the one written, it is believed exactly when it
      has the files that were written, unchanged, and its interpretation record says whether there is a normalized
      output. */
  lemma {:induction false} BelievedIffUnchanged(entries: seq<Entry>, codec: Codec, dir: seq<Entry>)
    requires Writable(entries, codec) && DigestsTell(entries, dir, codec)
    requires Content(dir, MANIFEST) == Manifest(entries, codec)
    ensures Verified(dir, codec) <==>
            && Names(dir) == Names(entries) + {MANIFEST}
            && (forall e :: e in entries ==> Content(dir, e.name) == e.content)
            && (INTERPRETATION in Names(dir) ==>
              codec.normalizedPresent(Content(dir, INTERPRETATION)) == Some(NORMALIZED in Names(dir)))
  {
    if Verified(dir, codec) { BelievedIsUnchanged(entries, codec, dir); }
    if Names(dir) == Names(entries) + {MANIFEST} && forall e :: e in entries ==> Content(dir, e.name) == e.content {
      UnchangedFits(entries, codec, dir);
    }
  }

  lemma {:induction false} BelievedIsUnchanged(entries: seq<Entry>, codec: Codec, dir: seq<Entry>)
    requires Writable(entries, codec) && DigestsTell(entries, dir, codec)
    requires Content(dir, MANIFEST) == Manifest(entries, codec) && Verified(dir, codec)
    ensures Names(dir) == Names(entries) + {MANIFEST}
    ensures forall e :: e in entries ==> Content(dir, e.name) == e.content
  {
    var written, text := Everything(entries, codec), Manifest(entries, codec);
    WrittenFits(entries, codec);
    AllowedHaveManifest(dir);
    SameRowsSameFiles(written, dir, codec, Header(text), Rows(text));
    forall e | e in entries ensures Content(dir, e.name) == e.content {
      assert Has(written, e.name) && Content(written, e.name) == e.content && e.name in Names(written);
    }
  }

  lemma {:induction false} UnchangedFits(entries: seq<Entry>, codec: Codec, dir: seq<Entry>)
    requires Writable(entries, codec) && Content(dir, MANIFEST) == Manifest(entries, codec)
    requires Names(dir) == Names(entries) + {MANIFEST}
    requires forall e :: e in entries ==> Content(dir, e.name) == e.content
    ensures ManifestFits(dir, codec, Header(Content(dir, MANIFEST)), Rows(Content(dir, MANIFEST)))
  {
    var written, text := Everything(entries, codec), Manifest(entries, codec);
    WrittenFits(entries, codec);
    forall name | name in Names(written) && name != MANIFEST ensures Content(written, name) == Content(dir, name) {
      var e :| e in written && e.name == name;
      assert e in entries;
    }
    SameFilesFit(written, dir, codec, Header(text), Rows(text));
  }

  // ----- The writer -----

  /** Stopped within the first k files, the rest does not matter. */
  lemma {:induction false} DiskShort(files: seq<Entry>, k: nat, steps: nat)
    requires k <= |files|
    ensures Steps(files[..k]) <= Steps(files)
    ensures steps <= Steps(files[..k]) ==> Disk(files, steps) == Disk(files[..k], steps)
    decreases |files|
  {
    if k == |files| {
      assert files[..k] == files;
    } else {
      var front := files[..|files| - 1];
      DiskShort(front, k, steps);
      assert front[..k] == files[..k];
    }
  }

  /** One file more, or stopped in it. */
  lemma {:induction false} DiskNext(files: seq<Entry>, k: nat, steps: nat)
    requires k < |files| && Steps(files[..k]) <= steps
    ensures var (left, e) := (steps - Steps(files[..k]), files[k]);
      && Steps(files[..k + 1]) == Steps(files[..k]) + 1 + |e.content| && Steps(files[..k + 1]) <= Steps(files)
      && (left < 1 + |e.content| ==> Disk(files, steps) == files[..k] + Cut(e, left))
      && (left >= 1 + |e.content| ==> Cut(e, left) == [e])
  {
    assert files[..k + 1] == files[..k] + [files[k]];
    DiskSnoc(files[..k], files[k], steps);
    DiskShort(files, k + 1, steps);
    if steps == Steps(files[..k]) { DiskAll(files[..k]); }
  }

  lemma {:induction false} DiskAll(files: seq<Entry>)
    ensures Disk(files, Steps(files)) == files
  {
    if files != [] {
      assert files == files[..|files| - 1] + [files[|files| - 1]];
    }
  }

  lemma {:induction false} DiskOfEverything(entries: seq<Entry>, codec: Codec, steps: nat)
    ensures var (files, manifest) := (Everything(entries, codec), Entry(MANIFEST, Manifest(entries, codec)));
      && Steps(files) == Steps(entries) + 1 + |manifest.content|
      && Disk(files, steps) == if steps < Steps(entries) then Disk(entries, steps)
        else entries + Cut(manifest, steps - Steps(entries))
  {
    DiskSnoc(entries, Entry(MANIFEST, Manifest(entries, codec)), steps);
    if steps == Steps(entries) { DiskAll(entries); }
  }

  class ImmutableShardWriter {
    var dir: seq<Entry>
    var sealed: bool
    /** How many more steps the process will take before it is stopped, if it is. */
    var steps: nat

    constructor (budget: nat)
      ensures dir == [] && !sealed && steps == budget
    {
      dir, sealed, steps := [], false, budget;
    }

    /** Creates one file; the process may be stopped before, or after any byte. */
    method WriteExclusive(name: string, content: string) returns (stopped: bool)
      requires !sealed && !Has(dir, name)
      modifies this
      ensures sealed == old(sealed)
      ensures dir == old(dir) + Cut(Entry(name, content), old(steps))
      ensures stopped <==> old(steps) < 1 + |content|
      ensures !stopped ==> steps == old(steps) - 1 - |content|
    {
      if steps == 0 { return true; }
      steps := steps - 1;
      var i := 0;
      while i < |content| && steps > 0
        invariant 0 <= i <= |content| && i + steps == old(steps) - 1
        invariant sealed == old(sealed) && dir == old(dir)
      {
        i, steps := i + 1, steps - 1;
      }
      dir := dir + [Entry(name, content[..i])];
      stopped := i < |content|;
      assert content[..|content|] == content;
    }

    method WriteAll(entries: seq<Entry>) returns (stopped: bool)
      requires !sealed && dir == []
      requires DistinctNames(entries)
      modifies this
      ensures sealed == old(sealed) && (stopped <==> old(steps) < Steps(entries))
      ensures if stopped then dir == Disk(entries, old(steps))
        else dir == entries && steps == old(steps) - Steps(entries)
    {
      for k := 0 to |entries|
        invariant sealed == old(sealed) && dir == entries[..k] && steps + Steps(entries[..k]) == old(steps)
      {
        DiskNext(entries, k, old(steps));
        assert !Has(dir, entries[k].name);
        stopped := WriteExclusive(entries[k].name, entries[k].content);
        if stopped { return true; }
        assert entries[..k + 1] == entries[..k] + [entries[k]];
      }
      assert entries[..|entries|] == entries;
      stopped := false;
    }

    /** Writes the artifacts and then their manifest, and seals the directory unless stopped. */
    method Write(entries: seq<Entry>, codec: Codec)
      requires !sealed && dir == [] && DistinctNames(entries) && !Has(entries, MANIFEST)
      modifies this
      ensures dir == Disk(Everything(entries, codec), old(steps))
      ensures sealed <==> old(steps) >= Steps(Everything(entries, codec))
    {
      DiskOfEverything(entries, codec, steps);
      var stopped := WriteAll(entries);
      if stopped { return; }
      stopped := WriteExclusive(MANIFEST, Manifest(dir, codec));
      sealed := !stopped;
    }
  }
}
