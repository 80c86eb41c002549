/**
  The seed format of script modules: the exporter writes each row to a headed text file, the
  disk seed of the initial migration reads it back.
 */
module SeedScripts {
  import opened Wrappers
  import opened Text

  const NAME_TAG := "# NAME:"
  const DESC_TAG := "# DESC:"
  const HEADER_WINDOW := 5

  datatype Script = Script(name: string, description: Option<string>, content: string, scriptType: string)
  datatype SeedFile = SeedFile(stem: string, suffix: string, text: string)

  // ----- file names -----

  function Extension(scriptType: string): string {
    if scriptType == "powershell" then ".ps1"
    else if scriptType == "python" then ".py"
    else if scriptType == "bash" then ".sh"
    else ".txt"
  }

  /** The suffix is matched in lower case. */
  function TypeOfSuffix(suffix: string): Option<string> {
    var lower := Lower(suffix);
    if lower == ".ps1" then Some("powershell")
    else if lower == ".py" then Some("python")
    else if lower == ".sh" then Some("bash")
    else None
  }

  predicate KnownType(scriptType: string) {
    scriptType == "powershell" || scriptType == "python" || scriptType == "bash"
  }

  /** The importer recovers the type from the suffix exactly when the type has one. */
  lemma SuffixOfType(scriptType: string)
    ensures TypeOfSuffix(Extension(scriptType)) == if KnownType(scriptType) then Some(scriptType) else None
    ensures TypeOfSuffix(".ps1") == Some("powershell") && TypeOfSuffix(".py") == Some("python")
    ensures TypeOfSuffix(".sh") == Some("bash") && TypeOfSuffix(".txt") == None
  {
    LowerIdentity(Extension(scriptType));
    LowerIdentity(".ps1");
    LowerIdentity(".py");
    LowerIdentity(".sh");
    LowerIdentity(".txt");
  }

  predicate IsSafe(c: char) {
    'A' <= c <= 'Z' || 'a' <= c <= 'z' || '0' <= c <= '9' || c == '.' || c == '_' || c == '-'
  }

  function DropUnsafe(s: string): (r: string)
    ensures |r| <= |s|
  {
    if s != "" && !IsSafe(s[0]) then DropUnsafe(s[1..]) else s
  }

  /** Every run of unsafe characters becomes one underscore. */
  function Squash(s: string): (r: string)
    ensures forall c :: c in r ==> IsSafe(c)
    decreases |s|
  {
    if s == "" then ""
    else if IsSafe(s[0]) then [s[0]] + Squash(s[1..])
    else "_" + Squash(DropUnsafe(s[1..]))
  }

  function StripEnds(s: string): (r: string)
    ensures forall c :: c in r ==> c in s
    ensures r != "" ==> r[0] != '_' && r[|r| - 1] != '_'
    decreases |s|
  {
    if s == "" then ""
    else if s[0] == '.' || s[0] == '_' then StripEnds(s[1..])
    else if s[|s| - 1] == '.' || s[|s| - 1] == '_' then StripEnds(s[..|s| - 1])
    else s
  }

  function Slugify(name: string): string {
    var slug := StripEnds(Squash(Trim(name)));
    if slug == "" then "unnamed" else slug
  }

  function FallbackName(stem: string): string {
    seq(|stem|, i requires 0 <= i < |stem| => if stem[i] == '_' then ' ' else stem[i])
  }

  // ----- exporting -----

  /** `replace("\r", "").replace("\n", " ")` */
  function OneLine(s: string): string {
    if s == "" then ""
    else if s[0] == '\r' then OneLine(s[1..])
    else if s[0] == '\n' then " " + OneLine(s[1..])
    else [s[0]] + OneLine(s[1..])
  }

  function FlatDescription(row: Script): string {
    Trim(OneLine(row.description.GetOr("")))
  }

  function HeaderLines(row: Script): seq<string> {
    [NAME_TAG + " " + row.name]
    + if FlatDescription(row) == "" then [] else [DESC_TAG + " " + FlatDescription(row)]
  }

  predicate IsHeader(line: string) {
    NAME_TAG <= line || DESC_TAG <= line
  }

  function StripHeaders(lines: seq<string>): seq<string> {
    if lines != [] && IsHeader(lines[0]) then StripHeaders(lines[1..]) else lines
  }

  /** The text `_render_script_file` must produce. */
  function RenderedText(row: Script): string {
    Join(HeaderLines(row) + [""]) + RTrim(Join(StripHeaders(SplitLines(row.content)))) + "\n"
  }

  function Export(row: Script, unnamed: string): SeedFile {
    SeedFile(Slugify(if row.name == "" then unnamed else row.name), Extension(row.scriptType), RenderedText(row))
  }

  method RenderScriptFile(row: Script) returns (text: string)
    ensures text == RenderedText(row)
  {
    var desc := Trim(OneLine(row.description.GetOr("")));
    var header := [NAME_TAG + " " + row.name];
    if desc != "" {
      header := header + [DESC_TAG + " " + desc];
    }
    header := header + [""];
    var lines := SplitLines(row.content);
    var i := 0;
    while i < |lines| && (NAME_TAG <= lines[i] || DESC_TAG <= lines[i] || Blank(lines[i]))
      invariant 0 <= i <= |lines|
      invariant StripHeaders(lines) == StripHeaders(lines[i..])
    {
      if NAME_TAG <= lines[i] || DESC_TAG <= lines[i] {
        i := i + 1;
        continue;
      }
      break;
    }
    text := Join(header) + RTrim(Join(lines[i..])) + "\n";
    assert header == HeaderLines(row) + [""];
  }

  // ----- importing -----

  datatype Scan = Scan(name: string, desc: string, bodyStart: nat)

  /** One step of the header scan, at line number `i`. */
  function ScanLine(st: Scan, i: nat, line: string): Scan {
    var stripped := Trim(line);
    if NAME_TAG <= stripped && st.name == "" then
      Scan(Trim(stripped[|NAME_TAG|..]), st.desc, i + 1)
    else if DESC_TAG <= stripped then
      Scan(st.name, Trim(stripped[|DESC_TAG|..]), i + 1)
    else if stripped == "" && st.bodyStart == i then
      st.(bodyStart := i + 1)
    else st
  }

  function WindowEnd(lines: seq<string>): nat {
    if |lines| < HEADER_WINDOW then |lines| else HEADER_WINDOW
  }

  function ScanWindow(lines: seq<string>, i: nat, st: Scan): Scan
    decreases WindowEnd(lines) - i
  {
    if i < WindowEnd(lines) then ScanWindow(lines, i + 1, ScanLine(st, i, lines[i])) else st
  }

  lemma {:induction false} ScanBounds(lines: seq<string>, i: nat, st: Scan)
    requires st.bodyStart <= i
    ensures st.bodyStart <= ScanWindow(lines, i, st).bodyStart <= if i < |lines| then |lines| else i
    decreases WindowEnd(lines) - i
  {
    if i < WindowEnd(lines) {
      ScanBounds(lines, i + 1, ScanLine(st, i, lines[i]));
    }
  }

  const START := Scan("", "", 0)

  /** The row the migration builds from a file, or nothing when the suffix is not a script's. */
  function Import(file: SeedFile): Option<Script> {
    var lines := SplitLines(UniversalNewlines(file.text));
    var scan := ScanWindow(lines, 0, START);
    ScanBounds(lines, 0, START);
    match TypeOfSuffix(file.suffix)
    case None => None
    case Some(scriptType) =>
      Some(Script(
        if scan.name == "" then FallbackName(file.stem) else scan.name,
        if scan.desc == "" then None else Some(scan.desc),
        RTrim(Join(lines[scan.bodyStart..])) + "\n",
        scriptType))
  }

  method ParseScriptFile(file: SeedFile) returns (row: Option<Script>)
    ensures row == Import(file)
  {
    var scriptType := TypeOfSuffix(file.suffix);
    if scriptType.None? {
      return None;
    }
    var lines := SplitLines(UniversalNewlines(file.text));
    var name, desc, bodyStart := "", "", 0;
    for i := 0 to WindowEnd(lines)
      invariant 0 <= bodyStart <= i
      invariant ScanWindow(lines, 0, START) == ScanWindow(lines, i, Scan(name, desc, bodyStart))
    {
      var stripped := Trim(lines[i]);
      if NAME_TAG <= stripped && name == "" {
        name := Trim(stripped[|NAME_TAG|..]);
        bodyStart := i + 1;
      } else if DESC_TAG <= stripped {
        desc := Trim(stripped[|DESC_TAG|..]);
        bodyStart := i + 1;
      } else if stripped == "" && bodyStart == i {
        bodyStart := i + 1;
      }
    }
    if name == "" {
      name := FallbackName(file.stem);
    }
    var body := RTrim(Join(lines[bodyStart..])) + "\n";
    row := Some(Script(name, if desc == "" then None else Some(desc), body, scriptType.value));
  }

  /** A file whose first five lines name nothing is named after itself, underscores standing for blanks. */
  lemma HeaderlessName(file: SeedFile)
    requires forall i :: 0 <= i < |SplitLines(UniversalNewlines(file.text))| && i < 5 ==>
               !("# NAME:" <= Trim(SplitLines(UniversalNewlines(file.text))[i]))
    ensures Import(file).Some? ==>
              var name := Import(file).value.name;
              && |name| == |file.stem|
              && forall i :: 0 <= i < |name| ==> name[i] == if file.stem[i] == '_' then ' ' else file.stem[i]
  {
    hide SplitLines, UniversalNewlines, Trim;
    var lines := SplitLines(UniversalNewlines(file.text));
    forall k | 0 <= k < WindowEnd(lines) ensures !(NAME_TAG <= Trim(lines[k])) {
      assert !("# NAME:" <= Trim(lines[k]));
    }
    NamelessWindow(lines, 0, START);
  }

  lemma {:induction false} NamelessWindow(lines: seq<string>, i: nat, st: Scan)
    requires st.name == "" && forall k :: i <= k < WindowEnd(lines) ==> !(NAME_TAG <= Trim(lines[k]))
    ensures ScanWindow(lines, i, st).name == ""
    decreases WindowEnd(lines) - i
  {
    if i < WindowEnd(lines) {
      NamelessWindow(lines, i + 1, ScanLine(st, i, lines[i]));
    }
  }

  // ----- the round trip -----

  /** A name the header line can carry. */
  predicate NameOk(name: string) {
    name != "" && Trimmed(name) && NoBreaks(name)
  }

  /** The body lines an exported file carries below its header. */
  function BodyLines(row: Script): seq<string> {
    TrimTail(StripHeaders(SplitLines(row.content)))
  }

  function HeaderSize(row: Script): nat {
    |HeaderLines(row)|
  }

  /** The importer takes nothing of the body for a header. */
  predicate BodySurvives(row: Script) {
    var body := BodyLines(row);
    body == [] ||
    (&& !Blank(body[0])
     && forall j :: 0 <= j < |body| && j + HeaderSize(row) < HEADER_WINDOW ==> !(DESC_TAG <= Trim(body[j])))
  }

  /** What the export format promises to bring back. */
  function Canonical(row: Script): Script {
    var flat := FlatDescription(row);
    Script(row.name, if flat == "" then None else Some(flat), Join(BodyLines(row)) + "\n", row.scriptType)
  }

  /**
    A description is flattened character by character: a carriage return goes, a line feed becomes a
    space, everything else stays where it is.
   */
  lemma {:induction false} OneLineIs(before: string, c: char, after: string)
    ensures OneLine(before + [c] + after)
         == OneLine(before) + (if c == '\r' then "" else if c == '\n' then " " else [c]) + OneLine(after)
  {
    var s := before + [c] + after;
    if before == "" {
      assert s[0] == c && s[1..] == after;
    } else {
      assert s[0] == before[0] && s[1..] == before[1..] + [c] + after;
      OneLineIs(before[1..], c, after);
    }
  }

  /** A name of safe characters that does not start or end in a dot or an underscore names its own file. */
  lemma SafeNameIsItsSlug(name: string)
    requires name != "" && name[0] !in "._" && name[|name| - 1] !in "._"
    requires forall c :: c in name ==> 'A' <= c <= 'Z' || 'a' <= c <= 'z' || '0' <= c <= '9' || c in "._-"
    ensures Slugify(name) == name
  {
    forall i | 0 <= i < |name| ensures IsSafe(name[i]) {
      assert name[i] in name;
      assert name[i] in "._-" ==> name[i] == '.' || name[i] == '_' || name[i] == '-';
    }
    SafeIsNoSpace();
    TrimIdentity(name);
    SquashIdentity(name);
  }

  lemma {:induction false} SquashIdentity(s: string)
    requires forall i :: 0 <= i < |s| ==> IsSafe(s[i])
    ensures Squash(s) == s
  {
    if s != "" {
      SquashIdentity(s[1..]);
    }
  }

  lemma SlugIsGoodName(name: string)
    ensures NameOk(FallbackName(Slugify(name)))
  {
    var slug := Slugify(name);
    SlugChars(name);
    SafeIsNoSpace();
    hide IsSafe, IsSpace, Slugify;
    assert forall i :: 0 <= i < |slug| ==> IsSafe(slug[i]);
    assert forall i :: 0 <= i < |slug| ==> FallbackName(slug)[i] == if slug[i] == '_' then ' ' else slug[i];
  }

  lemma SlugChars(name: string)
    ensures var slug := Slugify(name);
            slug != "" && slug[0] != '_' && slug[|slug| - 1] != '_' && forall i :: 0 <= i < |slug| ==> IsSafe(slug[i])
  {
    hide Trim;
    var slug := Slugify(name);
    assert forall i :: 0 <= i < |slug| ==> slug[i] in slug;
    assert forall c :: c in "unnamed" ==> IsSafe(c);
    assert "unnamed"[0] == 'u' && "unnamed"[6] == 'd';
  }

  lemma SafeIsNoSpace()
    ensures forall c :: IsSafe(c) && c != '_' ==> !IsSpace(c)
    ensures forall c :: IsSafe(c) ==> !IsLineBreak(c)
    ensures !IsLineBreak(' ')
  {
  }

  /** Whatever a file holds, the importer's name and description are trimmed single lines. */
  lemma {:induction false} ScanShape(lines: seq<string>, i: nat, st: Scan)
    requires forall l :: l in lines ==> NoBreaks(l)
    requires Trimmed(st.name) && NoBreaks(st.name) && Trimmed(st.desc) && NoBreaks(st.desc)
    ensures var r := ScanWindow(lines, i, st);
            Trimmed(r.name) && NoBreaks(r.name) && Trimmed(r.desc) && NoBreaks(r.desc)
    decreases WindowEnd(lines) - i
  {
    if i < WindowEnd(lines) {
      var stripped := Trim(lines[i]);
      assert NoBreaks(lines[i]);
      TrimShape(lines[i]);
      if |stripped| >= 7 {
        TrimShape(stripped[7..]);
      }
      ScanShape(lines, i + 1, ScanLine(st, i, lines[i]));
    }
  }

  /** Rows as the importer leaves them. */
  predicate Settled(row: Script) {
    NameOk(row.name) && SettledRest(row)
  }

  predicate SettledRest(row: Script) {
    && (row.description.Some? ==> NameOk(row.description.value))
    && KnownType(row.scriptType)
    && row.content == Join(ContentLines(row)) + "\n"
  }

  function ContentLines(row: Script): seq<string> {
    TrimTail(SplitLines(row.content))
  }

  /** One export followed by one import into a database that lacks the row. */
  function Cycle(row: Script, unnamed: string): Option<Script> {
    Import(Export(row, unnamed))
  }

  /** The lines of an imported body, before and after the final newline is put back. */
  lemma ContentOfTrimmed(lines: seq<string>)
    requires forall l :: l in lines ==> NoBreaks(l)
    requires lines == TrimTail(lines)
    ensures TrimTail(SplitLines(Join(lines) + "\n")) == lines
    ensures lines != [] ==> SplitLines(Join(lines) + "\n") == lines
    ensures lines == [] ==> SplitLines(Join(lines) + "\n") == [""]
  {
    if lines != [] {
      SplitJoin(lines);
    } else {
      SplitLinesFirst("", "");
      assert "" + "\n" + "" == "\n";
      assert [""][..0] == [];
    }
  }

  lemma TrimmedBody(rest: seq<string>)
    requires forall l :: l in rest ==> NoBreaks(l)
    ensures var content := RTrim(Join(rest)) + "\n";
            TrimTail(SplitLines(content)) == TrimTail(rest) && content == Join(TrimTail(rest)) + "\n"
  {
    RTrimJoin(rest);
    TrimTailNoBreaks(rest);
    TrimTailShape(rest);
    TrimTailFixed(TrimTail(rest));
    ContentOfTrimmed(TrimTail(rest));
  }

  /**
    Whatever the text, an imported row has the settled form except perhaps for its name, and the name is a
    good one unless the file names none and its stem does not make one.
   */
  lemma ImportSettles(file: SeedFile)
    ensures Import(file).Some? <==> TypeOfSuffix(file.suffix).Some?
    ensures Import(file).Some? ==>
              var row := Import(file).value;
              && SettledRest(row)
              && (NameOk(row.name) || row.name == FallbackName(file.stem))
  {
    var lines := SplitLines(UniversalNewlines(file.text));
    SplitLinesNoBreaks(UniversalNewlines(file.text));
    ScanBounds(lines, 0, START);
    ScanShape(lines, 0, START);
    TrimmedBody(lines[ScanWindow(lines, 0, START).bodyStart..]);
  }

  // ----- what the importer makes of an exported file -----

  /** From line `i` on, the scan takes no further line for a header. */
  predicate Quiet(lines: seq<string>, i: nat, bodyStart: nat) {
    && (forall j :: i <= j < WindowEnd(lines) ==> !(DESC_TAG <= Trim(lines[j])))
    && (bodyStart == i < WindowEnd(lines) ==> !Blank(lines[i]))
  }

  lemma {:induction false} ScanBody(lines: seq<string>, i: nat, st: Scan)
    requires st.name != "" && st.bodyStart <= i
    ensures var r := ScanWindow(lines, i, st);
            && r.name == st.name
            && (r.bodyStart == st.bodyStart <==> Quiet(lines, i, st.bodyStart))
            && (r.bodyStart == st.bodyStart ==> r == st)
    decreases WindowEnd(lines) - i
  {
    if i < WindowEnd(lines) {
      var next := ScanLine(st, i, lines[i]);
      ScanBounds(lines, i + 1, next);
      ScanBody(lines, i + 1, next);
    }
  }

  lemma TaggedLine(tag: string, text: string)
    requires tag == NAME_TAG || tag == DESC_TAG
    requires NameOk(text)
    ensures NoBreaks(tag + " " + text)
    ensures Trim(tag + " " + text) == tag + " " + text
    ensures Trim((tag + " " + text)[|tag|..]) == text
  {
    var line := tag + " " + text;
    TagChars();
    assert tag[0] == '#' && |tag| == 7;
    assert line[..7] == tag && line[7] == ' ' && line[8..] == text;
    hide IsSpace, IsLineBreak, NAME_TAG, DESC_TAG;
    assert NoBreaks(line);
    assert line[|line| - 1] == text[|text| - 1];
    TrimIdentity(line);
    assert line[7..] == [' '] + text;
    TrimLeadingSpace(text);
  }

  lemma TrimLeadingSpace(text: string)
    requires Trimmed(text)
    ensures Trim([' '] + text) == text
  {
    assert ([' '] + text)[1..] == text;
    TrimIdentity(text);
  }

  lemma TagChars()
    ensures NoBreaks(NAME_TAG) && NoBreaks(DESC_TAG) && !IsSpace('#') && !IsLineBreak(' ') && IsSpace(' ')
  {
  }

  lemma HeaderFacts(row: Script)
    requires NameOk(row.name) && NoBreaks(FlatDescription(row))
    ensures forall l :: l in HeaderLines(row) ==> NoBreaks(l)
  {
    TaggedLine(NAME_TAG, row.name);
    var flat := FlatDescription(row);
    TrimShape(OneLine(row.description.GetOr("")));
    if flat != "" {
      TaggedLine(DESC_TAG, flat);
    }
  }

  lemma ScanHeader(row: Script, lines: seq<string>)
    requires NameOk(row.name) && NoBreaks(FlatDescription(row))
    requires HeaderLines(row) <= lines
    ensures ScanWindow(lines, 0, START)
         == ScanWindow(lines, HeaderSize(row), Scan(row.name, FlatDescription(row), HeaderSize(row)))
  {
    var flat := FlatDescription(row);
    TaggedLine(NAME_TAG, row.name);
    TrimShape(OneLine(row.description.GetOr("")));
    assert lines[0] == HeaderLines(row)[0];
    assert ScanLine(START, 0, lines[0]) == Scan(row.name, "", 1);
    if flat != "" {
      TaggedLine(DESC_TAG, flat);
      assert lines[1] == HeaderLines(row)[1] == DESC_TAG + " " + flat;
      assert !(NAME_TAG <= lines[1]) by { assert lines[1][2] == 'D' && NAME_TAG[2] == 'N'; }
      assert ScanLine(Scan(row.name, "", 1), 1, lines[1]) == Scan(row.name, flat, 2);
    }
  }

  /** The lines of an exported file: the header, then the body or one empty line. */
  function FileLines(row: Script): seq<string> {
    HeaderLines(row) + if BodyLines(row) == [] then [""] else BodyLines(row)
  }

  lemma BodyFacts(row: Script)
    ensures forall l :: l in BodyLines(row) ==> NoBreaks(l)
    ensures BodyLines(row) != [] ==> Solid(BodyLines(row)[|BodyLines(row)| - 1])
    ensures RTrim(Join(StripHeaders(SplitLines(row.content)))) == Join(BodyLines(row))
  {
    SplitLinesNoBreaks(row.content);
    StripHeadersSuffix(SplitLines(row.content));
    TrimTailNoBreaks(StripHeaders(SplitLines(row.content)));
    TrimTailShape(StripHeaders(SplitLines(row.content)));
    RTrimJoin(StripHeaders(SplitLines(row.content)));
  }

  lemma ExportedText(row: Script)
    requires RTrim(Join(StripHeaders(SplitLines(row.content)))) == Join(BodyLines(row))
    ensures RenderedText(row) == Join(FileLines(row)) + "\n"
  {
    var header, body := HeaderLines(row), BodyLines(row);
    hide BodyLines, HeaderLines, RTrim, StripHeaders, SplitLines;
    JoinConcat(header, [""]);
    if body != [] {
      JoinConcat(header, body);
    }
  }

  lemma ExportedLines(row: Script, unnamed: string)
    requires NameOk(row.name) && NoBreaks(FlatDescription(row))
    ensures SplitLines(UniversalNewlines(Export(row, unnamed).text)) == FileLines(row)
  {
    HeaderFacts(row);
    BodyFacts(row);
    ExportedText(row);
    assert FileLines(row) != [];
    hide BodyLines, HeaderLines, RenderedText, Join, SplitLines, UniversalNewlines;
    assert forall l :: l in FileLines(row) ==> NoBreaks(l);
    SplitJoin(FileLines(row));
    UniversalSplit(RenderedText(row));
  }

  /** Where the importer finds the body of an exported file to begin. */
  function FoundStart(row: Script): nat {
    ScanWindow(FileLines(row), 0, START).bodyStart
  }

  lemma FoundStartFacts(row: Script)
    requires NameOk(row.name) && NoBreaks(FlatDescription(row))
    ensures HeaderSize(row) <= FoundStart(row) <= |FileLines(row)|
    ensures ScanWindow(FileLines(row), 0, START).name == row.name
    ensures FoundStart(row) == HeaderSize(row) <==> Quiet(FileLines(row), HeaderSize(row), HeaderSize(row))
    ensures FoundStart(row) == HeaderSize(row) ==> ScanWindow(FileLines(row), 0, START).desc == FlatDescription(row)
  {
    var lines, h := FileLines(row), HeaderSize(row);
    ScanHeader(row, lines);
    ScanBounds(lines, h, Scan(row.name, FlatDescription(row), h));
    ScanBody(lines, h, Scan(row.name, FlatDescription(row), h));
  }

  lemma QuietMeansSurvives(row: Script)
    requires BodyLines(row) != []
    ensures Quiet(FileLines(row), HeaderSize(row), HeaderSize(row)) <==> BodySurvives(row)
  {
    var lines, h, body := FileLines(row), HeaderSize(row), BodyLines(row);
    assert forall j :: 0 <= j < |body| ==> lines[j + h] == body[j];
    if Quiet(lines, h, h) {
      forall j | 0 <= j < |body| && j + h < HEADER_WINDOW ensures !(DESC_TAG <= Trim(body[j])) {
        assert !(DESC_TAG <= Trim(lines[j + h]));
      }
    }
  }

  /** The body lines left after the importer cut at `FoundStart`. */
  function KeptLines(row: Script): seq<string> {
    var cut := FoundStart(row) - HeaderSize(row);
    if 0 <= cut <= |BodyLines(row)| then BodyLines(row)[cut..] else []
  }

  lemma KeptLinesFacts(row: Script)
    requires NameOk(row.name) && NoBreaks(FlatDescription(row))
    ensures HeaderSize(row) <= FoundStart(row) <= |FileLines(row)|
    ensures var content := RTrim(Join(FileLines(row)[FoundStart(row)..])) + "\n";
            TrimTail(SplitLines(content)) == KeptLines(row) && content == Join(KeptLines(row)) + "\n"
  {
    FoundStartFacts(row);
    BodyFacts(row);
    HeaderFacts(row);
    var rest := FileLines(row)[FoundStart(row)..];
    TrimmedBody(rest);
    if BodyLines(row) == [] {
      assert rest == [] || rest == [""];
      assert [""][..0] == [];
    } else {
      assert rest == KeptLines(row);
      TrimTailFixed(rest);
    }
  }

  lemma ImportOfExport(row: Script, unnamed: string)
    requires NameOk(row.name) && NoBreaks(FlatDescription(row)) && KnownType(row.scriptType)
    ensures var back := Cycle(row, unnamed);
            && back.Some? && back.value.name == row.name && back.value.scriptType == row.scriptType
            && back.value.content == Join(KeptLines(row)) + "\n" && ContentLines(back.value) == KeptLines(row)
            && (FoundStart(row) == HeaderSize(row) ==> back.value.description == Canonical(row).description)
  {
    SuffixOfType(row.scriptType);
    hide TypeOfSuffix, Extension, KnownType;
    ExportedLines(row, unnamed);
    FoundStartFacts(row);
    KeptLinesFacts(row);
  }

  predicate HeaderOk(row: Script) {
    NameOk(row.name) && NoBreaks(FlatDescription(row)) && KnownType(row.scriptType)
  }

  lemma BodyCarried(row: Script, unnamed: string)
    requires HeaderOk(row) && FoundStart(row) == HeaderSize(row)
    ensures Cycle(row, unnamed) == Some(Canonical(row))
  {
    ImportOfExport(row, unnamed);
    assert KeptLines(row) == BodyLines(row);
  }

  lemma BodyCut(row: Script, unnamed: string)
    requires HeaderOk(row) && BodyLines(row) != [] && FoundStart(row) != HeaderSize(row)
    ensures Cycle(row, unnamed) != Some(Canonical(row))
  {
    var body := BodyLines(row);
    ImportOfExport(row, unnamed);
    FoundStartFacts(row);
    BodyFacts(row);
    TrimTailFixed(body);
    hide SplitLines, NoBreaks, TrimTail, Cycle, RTrim;
    ContentOfTrimmed(body);
    assert |KeptLines(row)| != |body|;
  }

  lemma EmptyBodyCarried(row: Script, unnamed: string)
    requires HeaderOk(row) && BodyLines(row) == []
    ensures Cycle(row, unnamed) == Some(Canonical(row))
  {
    ImportOfExport(row, unnamed);
    ExportedLines(row, unnamed);
    KeptWhenEmpty(row);
  }

  lemma HeaderLost(row: Script, unnamed: string)
    requires !HeaderOk(row)
    ensures Cycle(row, unnamed) != Some(Canonical(row))
  {
    SlugIsGoodName(if row.name == "" then unnamed else row.name);
    ImportSettles(Export(row, unnamed));
  }

  /**
    Exporting a row and importing the file gives the canonical row back exactly when the name is a
    trimmed, non-empty single line, the flattened description is a single line, the script type has a
    seed suffix, and no body line inside the five-line window is taken for a header.
   */
  lemma RoundTrip(row: Script, unnamed: string)
    ensures Cycle(row, unnamed) == Some(Canonical(row)) <==> HeaderOk(row) && BodySurvives(row)
  {
    if !HeaderOk(row) {
      HeaderLost(row, unnamed);
    } else if BodyLines(row) == [] {
      EmptyBodyCarried(row, unnamed);
    } else {
      QuietMeansSurvives(row);
      FoundStartFacts(row);
      if FoundStart(row) == HeaderSize(row) {
        BodyCarried(row, unnamed);
      } else {
        BodyCut(row, unnamed);
      }
    }
  }

  lemma KeptWhenEmpty(row: Script)
    requires NameOk(row.name) && NoBreaks(FlatDescription(row)) && BodyLines(row) == []
    ensures KeptLines(row) == []
    ensures ScanWindow(FileLines(row), 0, START).desc == FlatDescription(row)
  {
    var lines, h := FileLines(row), HeaderSize(row);
    ScanHeader(row, lines);
    assert lines[h] == "" && |lines| == h + 1;
    assert Trim("") == "";
    assert ScanWindow(lines, h, Scan(row.name, FlatDescription(row), h)) == Scan(row.name, FlatDescription(row), h + 1);
  }

  // ----- what the exporter leaves out -----

  /** How many leading lines of a body the exporter leaves out. */
  function Dropped(lines: seq<string>): (k: nat)
    ensures k <= |lines| && StripHeaders(lines) == lines[k..]
    ensures forall i :: 0 <= i < k ==> "# NAME:" <= lines[i] || "# DESC:" <= lines[i]
    ensures k < |lines| ==> !("# NAME:" <= lines[k]) && !("# DESC:" <= lines[k])
  {
    if lines != [] && IsHeader(lines[0]) then 1 + Dropped(lines[1..]) else 0
  }

  /**
    The exported text, for every row: a name line, a description line if there is a description, and the
    lines of the content without trailing whitespace.  Of these only a leading run of lines that start with
    one of the two tags is left out, and the first line kept starts with neither.
   */
  lemma ExportedTextIs(row: Script) returns (k: nat)
    ensures var lines, desc := SplitLines(row.content), FlatDescription(row);
            && k <= |lines|
            && (forall i :: 0 <= i < k ==> "# NAME:" <= lines[i] || "# DESC:" <= lines[i])
            && (k < |lines| ==> !("# NAME:" <= lines[k]) && !("# DESC:" <= lines[k]))
            && RenderedText(row)
               == "# NAME: " + row.name + "\n" + (if desc == "" then "" else "# DESC: " + desc + "\n")
                  + RTrim(Join(lines[k..])) + "\n"
  {
    var lines, desc := SplitLines(row.content), FlatDescription(row);
    k := Dropped(lines);
    var first, second := "# NAME: " + row.name, "# DESC: " + desc;
    assert NAME_TAG + " " == "# NAME: " && DESC_TAG + " " == "# DESC: ";
    hide SplitLines, FlatDescription, RTrim, StripHeaders, Join;
    JoinHeader(first, second);
    assert HeaderLines(row) + [""] == if desc == "" then [first, ""] else [first, second, ""];
    var header := first + "\n" + if desc == "" then "" else second + "\n";
    assert Join(HeaderLines(row) + [""]) == header;
    assert RenderedText(row) == header + RTrim(Join(lines[k..])) + "\n";
    assert header == "# NAME: " + row.name + "\n" + (if desc == "" then "" else "# DESC: " + desc + "\n");
  }

  lemma JoinHeader(first: string, second: string)
    ensures Join([first, ""]) == first + "\n"
    ensures Join([first, second, ""]) == first + "\n" + (second + "\n")
  {
    assert [first, ""][1..] == [""] && [first, second, ""][1..] == [second, ""] && [second, ""][1..] == [""];
    assert Join([second, ""]) == second + "\n" + Join([""]) == second + "\n" + "";
  }

  /**
    A script whose first line starts with neither tag comes back whole: with a good header, and unless a
    line of it inside the five-line window is blank at its head or looks like a description line, its
    content comes back line by line, only the whitespace at its end made one newline.
   */
  lemma UntouchedBody(row: Script, unnamed: string)
    requires HeaderOk(row)
    requires var body := ContentLines(row);
             && body != [] && Trim(body[0]) != "" && !("# NAME:" <= body[0]) && !("# DESC:" <= body[0])
             && forall j :: 0 <= j < |body| && j + (if FlatDescription(row) == "" then 1 else 2) < 5 ==>
                            !("# DESC:" <= Trim(body[j]))
    ensures var desc := FlatDescription(row);
            Cycle(row, unnamed)
            == Some(Script(row.name, if desc == "" then None else Some(desc), Join(ContentLines(row)) + "\n",
                           row.scriptType))
  {
    var lines, body := SplitLines(row.content), ContentLines(row);
    TrimTailShape(lines);
    TagSurvivesTrim(lines);
    assert StripHeaders(lines) == lines;
    assert BodyLines(row) == body;
    assert HeaderSize(row) == if FlatDescription(row) == "" then 1 else 2;
    hide SplitLines, TrimTail, Trim, FlatDescription;
    RoundTrip(row, unnamed);
  }

  /** A first line that starts with neither tag once its end is trimmed starts with neither before. */
  lemma TagSurvivesTrim(lines: seq<string>)
    requires TrimTail(lines) != []
    requires !("# NAME:" <= TrimTail(lines)[0]) && !("# DESC:" <= TrimTail(lines)[0])
    ensures lines != [] && !IsHeader(lines[0])
  {
    TrimTailHead(lines);
    TagsOutliveRTrim(lines[0]);
  }

  lemma TagsOutliveRTrim(line: string)
    ensures IsHeader(line) ==> "# NAME:" <= RTrim(line) || "# DESC:" <= RTrim(line)
  {
    TagChars();
    RTrimShape(line);
    assert |line| > 6 && line[6] == ':' ==> |RTrim(line)| > 6;
  }

  lemma {:induction false} TrimTailHead(lines: seq<string>)
    requires TrimTail(lines) != []
    ensures lines != [] && (TrimTail(lines)[0] == lines[0] || TrimTail(lines)[0] == RTrim(lines[0]))
  {
    var last := lines[|lines| - 1];
    if RTrim(last) == "" {
      TrimTailHead(lines[..|lines| - 1]);
    }
  }

  // ----- repeated cycles -----

  lemma SettledDescription(row: Script)
    requires Settled(row)
    ensures FlatDescription(row) == row.description.GetOr("")
    ensures NoBreaks(FlatDescription(row))
  {
    OneLineIdentity(row.description.GetOr(""));
    TrimIdentity(row.description.GetOr(""));
  }

  lemma {:induction false} OneLineIdentity(s: string)
    requires NoBreaks(s)
    ensures OneLine(s) == s
  {
    if s != "" {
      OneLineIdentity(s[1..]);
    }
  }

  lemma {:induction false} StripHeadersSuffix(lines: seq<string>)
    ensures |StripHeaders(lines)| <= |lines|
    ensures StripHeaders(lines) == lines[|lines| - |StripHeaders(lines)|..]
  {
    if lines != [] && IsHeader(lines[0]) {
      StripHeadersSuffix(lines[1..]);
    }
  }

  lemma ContentLinesFacts(row: Script)
    ensures forall l :: l in ContentLines(row) ==> NoBreaks(l)
    ensures ContentLines(row) != [] ==> Solid(ContentLines(row)[|ContentLines(row)| - 1])
  {
    SplitLinesNoBreaks(row.content);
    TrimTailNoBreaks(SplitLines(row.content));
    TrimTailShape(SplitLines(row.content));
  }

  lemma SettledBody(row: Script)
    requires row.content == Join(ContentLines(row)) + "\n"
    ensures BodyLines(row) == StripHeaders(ContentLines(row))
  {
    var d := ContentLines(row);
    ContentLinesFacts(row);
    TrimTailFixed(d);
    ContentOfTrimmed(d);
    StripHeadersSuffix(d);
    if d == [] {
      assert !IsHeader("");
      assert StripHeaders([""]) == [""];
      assert [""][..0] == [];
    } else {
      TrimTailFixed(StripHeaders(d));
    }
  }

  /** A cycle on an imported row either drops body lines or changes nothing at all. */
  lemma CycleShrinksOrStays(row: Script, unnamed: string)
    requires Settled(row)
    ensures var back := Cycle(row, unnamed);
            && back.Some? && Settled(back.value) && back.value.name == row.name
            && (back.value == row || |ContentLines(back.value)| < |ContentLines(row)|)
  {
    SlugIsGoodName(row.name);
    ImportSettles(Export(row, unnamed));
    SettledDescription(row);
    SettledBody(row);
    ImportOfExport(row, unnamed);
    FoundStartFacts(row);
    StripHeadersSuffix(ContentLines(row));
    if BodyLines(row) == [] {
      KeptWhenEmpty(row);
      RoundTrip(row, unnamed);
    }
  }

  function Cycles(row: Script, unnamed: string, n: nat): Option<Script>
    decreases n
  {
    if n == 0 then Some(row)
    else match Cycle(row, unnamed)
      case None => None
      case Some(next) => Cycles(next, unnamed, n - 1)
  }

  lemma {:induction false} CyclesOfFixed(row: Script, unnamed: string, n: nat)
    requires Cycle(row, unnamed) == Some(row)
    ensures Cycles(row, unnamed, n) == Some(row)
  {
    if n > 0 {
      CyclesOfFixed(row, unnamed, n - 1);
    }
  }

  /** A settled row is a fixed point after at most as many cycles as its body has lines. */
  lemma {:induction false} SettledConverges(row: Script, unnamed: string, n: nat)
    requires Settled(row) && n >= |ContentLines(row)|
    ensures Cycles(row, unnamed, n).Some?
    ensures var last := Cycles(row, unnamed, n).value;
            last.name == row.name && Cycle(last, unnamed) == Some(last)
    decreases n
  {
    hide Cycle, Settled, ContentLines;
    CycleShrinksOrStays(row, unnamed);
    var next := Cycle(row, unnamed).value;
    if next == row {
      CyclesOfFixed(row, unnamed, n);
    } else {
      SettledConverges(next, unnamed, n - 1);
    }
  }

  lemma RenderedStart(row: Script)
    ensures exists rest :: RenderedText(row) == NAME_TAG + " " + row.name + "\n" + rest
  {
    hide RTrim, StripHeaders, SplitLines, FlatDescription;
    var first, more := NAME_TAG + " " + row.name, HeaderLines(row)[1..] + [""];
    assert HeaderLines(row) + [""] == [first] + more;
    assert ([first] + more)[1..] == more;
    var body := RTrim(Join(StripHeaders(SplitLines(row.content))));
    assert RenderedText(row) == first + "\n" + Join(more) + body + "\n";
    assert RenderedText(row) == first + "\n" + (Join(more) + body + "\n");
  }

  /** The name needs no help from the rest of the row: it is the file's first line. */
  lemma NameSurvives(row: Script, unnamed: string)
    requires NameOk(row.name) && KnownType(row.scriptType)
    ensures Cycle(row, unnamed).Some? && Cycle(row, unnamed).value.name == row.name
  {
    hide RTrim, Join, RenderedText, SplitLines, UniversalNewlines, Trim;
    var first := NAME_TAG + " " + row.name;
    RenderedStart(row);
    var rest :| RenderedText(row) == first + "\n" + rest;
    TaggedLine(NAME_TAG, row.name);
    SplitLinesFirst(first, rest);
    UniversalSplit(RenderedText(row));
    var lines := SplitLines(UniversalNewlines(RenderedText(row)));
    assert lines[0] == first;
    assert ScanLine(START, 0, first) == Scan(row.name, "", 1);
    ScanBody(lines, 1, Scan(row.name, "", 1));
  }

  /**
    Whatever the row, repeated cycles reach a fixed point: one cycle to settle, then at most one per
    body line of the settled row.  A name the header can carry is never lost on the way.
   */
  lemma CyclesConverge(row: Script, unnamed: string, n: nat)
    ensures Cycle(row, unnamed).Some? <==> KnownType(row.scriptType)
    ensures KnownType(row.scriptType) && n > |ContentLines(Cycle(row, unnamed).value)| ==>
              && Cycles(row, unnamed, n).Some?
              && Cycle(Cycles(row, unnamed, n).value, unnamed) == Cycles(row, unnamed, n)
              && (NameOk(row.name) ==> Cycles(row, unnamed, n).value.name == row.name)
  {
    hide Cycle, Settled, ContentLines;
    FirstCycle(row, unnamed);
    if KnownType(row.scriptType) {
      var settled := Cycle(row, unnamed).value;
      if n > |ContentLines(settled)| {
        SettledConverges(settled, unnamed, n - 1);
      }
    }
  }

  /** The name comes back exactly when the header line can carry it. */
  lemma FirstCycle(row: Script, unnamed: string)
    ensures Cycle(row, unnamed).Some? <==> KnownType(row.scriptType)
    ensures KnownType(row.scriptType) ==> Settled(Cycle(row, unnamed).value)
    ensures KnownType(row.scriptType) ==> (Cycle(row, unnamed).value.name == row.name <==> NameOk(row.name))
  {
    SuffixOfType(row.scriptType);
    SlugIsGoodName(if row.name == "" then unnamed else row.name);
    ImportSettles(Export(row, unnamed));
    if NameOk(row.name) && KnownType(row.scriptType) {
      NameSurvives(row, unnamed);
    }
  }

  /** With a single-line description the body never grows, even on the first cycle. */
  lemma FirstCycleNeverGrows(row: Script, unnamed: string)
    requires HeaderOk(row)
    ensures Cycle(row, unnamed).Some?
    ensures |ContentLines(Cycle(row, unnamed).value)| <= |ContentLines(row)|
  {
    var lines := SplitLines(row.content);
    hide SplitLines, NoBreaks, Cycle, Import, Export, ScanWindow;
    ImportOfExport(row, unnamed);
    FoundStartFacts(row);
    StripHeadersSuffix(lines);
    TrimTailSuffix(lines, |lines| - |StripHeaders(lines)|);
  }

  lemma {:induction false} TrimTailSuffix(lines: seq<string>, k: nat)
    requires k <= |lines|
    ensures |TrimTail(lines[k..])| <= |TrimTail(lines)|
  {
    TrimTailShape(lines[k..]);
    TrimTailShape(lines);
    var t, u := TrimTail(lines[k..]), TrimTail(lines);
    if |t| > |u| {
      assert |u| <= |t| - 1 + k < |lines|;
      assert Blank(lines[|t| - 1 + k]);
      assert Trim(t[|t| - 1]) == Trim(lines[k..][|t| - 1]);
      BlankMeansSpaces(t[|t| - 1]);
    }
  }

  // ----- descriptions that tear the header -----

  /** What one more character in front does to the lines of a text. */
  function PutBefore(c: char, lines: seq<string>): seq<string> {
    if IsLineBreak(c) then [""] + lines
    else if lines == [] then [[c]]
    else [[c] + lines[0]] + lines[1..]
  }

  lemma SplitStep(x: string)
    requires x != "" && x[0] != '\r'
    ensures SplitLines(x) == PutBefore(x[0], SplitLines(x[1..]))
    ensures x[1..] == "" <==> SplitLines(x[1..]) == []
  {
    SplitLinesNoBreaks(x[1..]);
  }

  lemma PutBeforeConcat(c: char, a: seq<string>, b: seq<string>)
    requires a != []
    ensures PutBefore(c, a + b) == PutBefore(c, a) + b && PutBefore(c, a) != []
  {
    hide IsLineBreak;
    if IsLineBreak(c) {
      assert [""] + (a + b) == [""] + a + b;
    } else {
      assert (a + b)[0] == a[0] && (a + b)[1..] == a[1..] + b;
      assert [[c] + a[0]] + (a[1..] + b) == [[c] + a[0]] + a[1..] + b;
    }
  }

  /** A text that does not end at a line boundary ends a line of its own when "\n" follows it. */
  lemma {:induction false} SplitConcat(x: string, t: string)
    requires x != "" && !IsLineBreak(x[|x| - 1]) && '\r' !in x
    ensures SplitLines(x) != []
    ensures SplitLines(x + "\n" + t) == SplitLines(x) + SplitLines(t)
  {
    var s := x + "\n" + t;
    assert x[0] in x && s[0] == x[0] && s[1..] == x[1..] + "\n" + t;
    SplitStep(x);
    SplitStep(s);
    if |x| == 1 {
      SplitLinesFirst("", t);
      assert s[1..] == "" + "\n" + t;
      PutBeforeLine(x[0], SplitLines(t));
    } else {
      SplitConcat(x[1..], t);
      PutBeforeConcat(x[0], SplitLines(x[1..]), SplitLines(t));
    }
  }

  lemma PutBeforeLine(c: char, lines: seq<string>)
    requires !IsLineBreak(c)
    ensures PutBefore(c, [""] + lines) == PutBefore(c, []) + lines
  {
    assert [c] + "" == [c];
  }

  lemma {:induction false} SplitPrefixed(p: string, x: string)
    requires NoBreaks(p) && x != "" && '\r' !in p
    ensures SplitLines(x) != []
    ensures SplitLines(p + x) == [p + SplitLines(x)[0]] + SplitLines(x)[1..]
  {
    SplitLinesNoBreaks(x);
    var parts := SplitLines(x);
    hide SplitLines;
    if p == "" {
      assert p + x == x;
      assert p + parts[0] == parts[0];
    } else {
      assert p[0] in p && (p + x)[0] == p[0] && (p + x)[1..] == p[1..] + x;
      SplitStep(p + x);
      SplitPrefixed(p[1..], x);
      assert [p[0]] + (p[1..] + parts[0]) == p + parts[0];
    }
  }

  /** A flattened description holds no CR and no LF. */
  lemma {:induction false} OneLineChars(s: string)
    ensures '\r' !in OneLine(s) && '\n' !in OneLine(s)
  {
    if s != "" {
      OneLineChars(s[1..]);
    }
  }

  lemma TrimChars(s: string)
    ensures forall c :: c in Trim(s) ==> c in s
  {
    LTrimShape(s);
    RTrimShape(LTrim(s));
  }

  function DescriptionLines(row: Script): seq<string> {
    SplitLines(FlatDescription(row))
  }

  /** What the importer finds below the first line of a torn description. */
  function TornBody(row: Script): seq<string> {
    DescriptionLines(row)[if DescriptionLines(row) == [] then 0 else 1..] + BodyLines(row)
  }

  predicate Torn(row: Script) {
    !NoBreaks(FlatDescription(row))
  }

  lemma TornDescriptionFacts(row: Script)
    requires Torn(row)
    ensures var flat, parts := FlatDescription(row), DescriptionLines(row);
            && flat != "" && Trimmed(flat) && '\r' !in flat && |parts| > 1 && Trim(parts[0]) != ""
            && Solid(parts[|parts| - 1]) && (forall l :: l in parts ==> NoBreaks(l))
  {
    var raw := OneLine(row.description.GetOr(""));
    OneLineChars(row.description.GetOr(""));
    TrimChars(raw);
    TrimShape(raw);
    SplitLinesNoBreaks(FlatDescription(row));
    SplitEnds(FlatDescription(row));
  }

  /** The first and last lines of a trimmed text of several lines. */
  lemma SplitEnds(x: string)
    requires x != "" && Trimmed(x) && '\r' !in x && !NoBreaks(x)
    ensures var parts := SplitLines(x);
            |parts| > 1 && parts[0] != "" && parts[0][0] == x[0] && Trim(parts[0]) != "" && Solid(parts[|parts| - 1])
  {
    hide IsSpace, IsLineBreak, Trim, RTrim;
    SpacesAndBreaks();
    SplitHead(x);
    SplitLast(x);
    var first, last := SplitLines(x)[0], SplitLines(x)[|SplitLines(x)| - 1];
    BlankMeansSpaces(first);
    RTrimShape(last);
  }

  lemma SpacesAndBreaks()
    ensures forall c :: IsLineBreak(c) ==> IsSpace(c)
  {
  }

  lemma {:induction false} SplitHead(x: string)
    requires x != "" && !IsLineBreak(x[0])
    ensures var parts := SplitLines(x);
            parts != [] && parts[0] != "" && parts[0][0] == x[0]
  {
  }

  lemma NoBreaksTail(x: string)
    requires x != ""
    ensures NoBreaks(x) <==> !IsLineBreak(x[0]) && NoBreaks(x[1..])
  {
    hide IsLineBreak;
    assert forall i :: 1 <= i < |x| ==> x[i] == x[1..][i - 1];
  }

  lemma {:induction false} SplitLast(x: string)
    requires x != "" && !IsLineBreak(x[|x| - 1]) && '\r' !in x
    ensures SplitLines(x) != []
    ensures var last := SplitLines(x)[|SplitLines(x)| - 1];
            last != "" && last[|last| - 1] == x[|x| - 1]
    ensures |SplitLines(x)| == 1 <==> NoBreaks(x)
  {
    assert x[0] in x;
    NoBreaksTail(x);
    SplitStep(x);
    hide IsLineBreak, SplitLines;
    if |x| > 1 {
      SplitLast(x[1..]);
    }
  }

  lemma TornText(row: Script, rest: seq<string>)
    requires FlatDescription(row) != "" && rest == if BodyLines(row) == [] then [""] else BodyLines(row)
    ensures RenderedText(row)
         == NAME_TAG + " " + row.name + "\n" + (DESC_TAG + " " + FlatDescription(row) + "\n" + (Join(rest) + "\n"))
  {
    var first, second := NAME_TAG + " " + row.name, DESC_TAG + " " + FlatDescription(row);
    BodyFacts(row);
    ExportedText(row);
    hide BodyLines, FlatDescription, RenderedText, Join, RTrim, StripHeaders, SplitLines, TrimTail, NoBreaks, Solid;
    assert HeaderLines(row) == [first, second];
    assert FileLines(row) == [first] + ([second] + rest);
    JoinHead(first, [second] + rest);
    JoinHead(second, rest);
  }

  /** The lines of the exported file of a row with a torn description. */
  function TornFile(row: Script): seq<string> {
    var parts := DescriptionLines(row);
    if parts == [] then []
    else
      [NAME_TAG + " " + row.name]
      + ([DESC_TAG + " " + parts[0]] + parts[1..] + if BodyLines(row) == [] then [""] else BodyLines(row))
  }

  lemma TornLines(row: Script, unnamed: string)
    requires NameOk(row.name) && Torn(row)
    ensures SplitLines(UniversalNewlines(Export(row, unnamed).text)) == TornFile(row)
  {
    var flat, body := FlatDescription(row), BodyLines(row);
    var rest := if body == [] then [""] else body;
    var first, tail := NAME_TAG + " " + row.name, DESC_TAG + " " + flat + "\n" + (Join(rest) + "\n");
    TornDescriptionFacts(row);
    BodyFacts(row);
    TornText(row, rest);
    TaggedLine(NAME_TAG, row.name);
    UniversalSplit(RenderedText(row));
    EmptyLine();
    hide BodyLines, FlatDescription, RenderedText, SplitLines, UniversalNewlines, Trim, Torn, NameOk, Join;
    hide NoBreaks, HeaderLines;
    SplitLinesFirst(first, tail);
    TornSecond(flat, Join(rest) + "\n");
    SplitJoin(rest);
  }

  lemma EmptyLine()
    ensures NoBreaks("") && Trim("") == ""
  {
  }

  lemma TornSecond(flat: string, t: string)
    requires flat != "" && Trimmed(flat) && '\r' !in flat
    ensures SplitLines(flat) != []
    ensures SplitLines(DESC_TAG + " " + flat + "\n" + t)
         == [DESC_TAG + " " + SplitLines(flat)[0]] + SplitLines(flat)[1..] + SplitLines(t)
  {
    TagChars();
    SpacesAndBreaks();
    assert '\r' !in DESC_TAG + " ";
    hide IsLineBreak, IsSpace, SplitLines;
    assert NoBreaks(DESC_TAG + " ");
    SplitConcat(DESC_TAG + " " + flat, t);
    SplitPrefixed(DESC_TAG + " ", flat);
  }

  /** The importer takes none of the torn-off lines, nor of the body below them, for a header. */
  predicate TornSurvives(row: Script) {
    var below := TornBody(row);
    && below != [] && !Blank(below[0])
    && forall j :: 0 <= j < |below| && j + 2 < HEADER_WINDOW ==> !(DESC_TAG <= Trim(below[j]))
  }

  lemma TornTag(text: string)
    requires text != "" && !IsSpace(text[0])
    ensures Trim(DESC_TAG + " " + text) == DESC_TAG + " " + Trim(text)
    ensures Trim((DESC_TAG + " " + Trim(text))[|DESC_TAG|..]) == Trim(text)
  {
    var line, head := DESC_TAG + " " + text, DESC_TAG + " ";
    TagChars();
    assert line[0] == '#' && DESC_TAG[0] == '#';
    hide IsSpace;
    assert LTrim(line) == line && LTrim(text) == text;
    BlankMeansSpaces(text);
    RTrimConcat(head, text);
    TrimShape(text);
    assert (head + Trim(text))[7..] == [' '] + Trim(text);
    TrimLeadingSpace(Trim(text));
  }

  lemma TornHeader(row: Script)
    requires NameOk(row.name) && Torn(row)
    ensures var first := Trim(DescriptionLines(row)[0]);
            ScanWindow(TornFile(row), 0, START) == ScanWindow(TornFile(row), 2, Scan(row.name, first, 2))
  {
    var lines, parts := TornFile(row), DescriptionLines(row);
    TornDescriptionFacts(row);
    TaggedLine(NAME_TAG, row.name);
    SplitEnds(FlatDescription(row));
    TornTag(parts[0]);
    assert lines[0] == NAME_TAG + " " + row.name && lines[1] == DESC_TAG + " " + parts[0];
    hide IsSpace, IsLineBreak, Trim, DescriptionLines, BodyLines, Torn;
    assert ScanLine(START, 0, lines[0]) == Scan(row.name, "", 1);
    assert !(NAME_TAG <= Trim(lines[1])) by {
      assert DESC_TAG[2] == 'D' && NAME_TAG[2] == 'N' && Trim(lines[1])[2] == 'D';
    }
    assert ScanLine(Scan(row.name, "", 1), 1, lines[1]) == Scan(row.name, Trim(parts[0]), 2);
  }

  lemma QuietBody(lines: seq<string>, body: seq<string>, end: seq<string>)
    requires |lines| == 2 + |body| + |end| && lines[2..] == body + end && body != [] && (end == [] || end == [""])
    ensures Quiet(lines, 2, 2) <==>
            !Blank(body[0]) && forall j :: 0 <= j < |body| && j + 2 < HEADER_WINDOW ==> !(DESC_TAG <= Trim(body[j]))
  {
    EmptyLine();
    hide Trim;
    forall j | 0 <= j < |body| + |end| ensures lines[j + 2] == if j < |body| then body[j] else "" {
      assert lines[j + 2] == lines[2..][j];
    }
    if Quiet(lines, 2, 2) {
      forall j | 0 <= j < |body| && j + 2 < HEADER_WINDOW ensures !(DESC_TAG <= Trim(body[j])) {
        assert !(DESC_TAG <= Trim(lines[j + 2]));
      }
    } else if !Blank(body[0]) {
      var k :| 2 <= k < WindowEnd(lines) && DESC_TAG <= Trim(lines[k]);
      assert lines[k - 2 + 2] == body[k - 2];
    }
  }

  /** Where the importer finds the body of a torn file to begin. */
  lemma TornStart(row: Script)
    requires NameOk(row.name) && Torn(row)
    ensures var st := ScanWindow(TornFile(row), 0, START);
            && 2 <= st.bodyStart <= |TornFile(row)| && st.name == row.name
            && (st.bodyStart == 2 <==> TornSurvives(row))
            && (st.bodyStart == 2 ==> st.desc == Trim(DescriptionLines(row)[0]))
  {
    var lines, header := TornFile(row), Scan(row.name, Trim(DescriptionLines(row)[0]), 2);
    TornDescriptionFacts(row);
    TornHeader(row);
    TornBodyFacts(row);
    TornShape(row);
    hide TornFile, TornBody, Trim, DescriptionLines, BodyLines, Torn, ScanWindow, Quiet, EndLine;
    ScanBounds(lines, 2, header);
    ScanBody(lines, 2, header);
    EndLineFacts(row);
    QuietBody(lines, TornBody(row), EndLine(row));
  }

  lemma EndLineFacts(row: Script)
    ensures EndLine(row) == [] || EndLine(row) == [""]
  {
    hide BodyLines;
  }

  function EndLine(row: Script): seq<string> {
    if BodyLines(row) == [] then [""] else []
  }

  lemma TornShape(row: Script)
    requires DescriptionLines(row) != []
    ensures |TornFile(row)| == 2 + |TornBody(row)| + |EndLine(row)|
    ensures TornFile(row)[2..] == TornBody(row) + EndLine(row)
  {
    hide DescriptionLines, BodyLines;
  }

  /** Cutting lines off the front of a body leaves fewer of them, one empty line at the end or not. */
  lemma CutBody(body: seq<string>, extra: seq<string>, k: nat)
    requires body != [] && TrimTail(body) == body && (extra == [] || extra == [""]) && k <= |body + extra|
    ensures TrimTail(body + extra) == body
    ensures k > 0 ==> |TrimTail((body + extra)[k..])| < |body|
  {
    TrimTailShape((body + extra)[k..]);
    if extra == [""] {
      TrimTailSnoc(body);
      if k <= |body| {
        assert (body + extra)[k..] == body[k..] + [""];
        TrimTailSnoc(body[k..]);
        TrimTailShape(body[k..]);
      }
    } else {
      assert body + extra == body;
    }
  }

  /** The body lines the importer keeps of a torn file: all of them only if it begins right below the header. */
  lemma TornRest(row: Script, b: nat)
    requires NameOk(row.name) && Torn(row) && 2 <= b <= |TornFile(row)|
    ensures forall l :: l in TornFile(row)[b..] ==> NoBreaks(l)
    ensures b == 2 ==> TrimTail(TornFile(row)[b..]) == TornBody(row)
    ensures b > 2 ==> |TrimTail(TornFile(row)[b..])| < |TornBody(row)|
    ensures TornBody(row) == TrimTail(TornBody(row)) && forall l :: l in TornBody(row) ==> NoBreaks(l)
  {
    var lines, below := TornFile(row), TornBody(row);
    TornDescriptionFacts(row);
    TornBodyFacts(row);
    TornShape(row);
    EmptyLine();
    hide TornFile, TornBody, Trim, RTrim, DescriptionLines, BodyLines, Torn, NoBreaks, Solid, TrimTail;
    assert lines[b..] == (below + EndLine(row))[b - 2..];
    CutBody(below, EndLine(row), b - 2);
  }

  lemma TornBodyFacts(row: Script)
    requires Torn(row)
    ensures TornBody(row) != [] && TrimTail(TornBody(row)) == TornBody(row)
    ensures forall l :: l in TornBody(row) ==> NoBreaks(l)
  {
    TornDescriptionFacts(row);
    BodyFacts(row);
    hide Trim, RTrim, DescriptionLines, BodyLines, Torn, NoBreaks, Solid, TrimTail;
    TrimTailFixed(TornBody(row));
  }

  lemma TrimTailSnoc(lines: seq<string>)
    ensures TrimTail(lines + [""]) == TrimTail(lines)
  {
    assert (lines + [""])[..|lines|] == lines;
  }

  /**
    A flattened description that still holds a line boundary (a vertical tab, say) is the exception: it
    tears the header.  Only its first line comes back as the description; the others become the first lines
    of the body, whatever the body, exactly when none of them is taken for a header.  The body then grows
    by as many lines as were torn off.
   */
  lemma TornDescription(row: Script, unnamed: string)
    requires NameOk(row.name) && KnownType(row.scriptType) && Torn(row)
    ensures var first, below := DescriptionLines(row)[0], TornBody(row);
            Cycle(row, unnamed) == Some(Script(row.name, Some(Trim(first)), Join(below) + "\n", row.scriptType))
            <==> TornSurvives(row)
    ensures TornSurvives(row) ==>
              && Cycle(row, unnamed).Some?
              && |ContentLines(Cycle(row, unnamed).value)| == |DescriptionLines(row)| - 1 + |BodyLines(row)|
              && |DescriptionLines(row)| > 1
  {
    var lines, below := TornFile(row), TornBody(row);
    TornDescriptionFacts(row);
    TornLines(row, unnamed);
    TornStart(row);
    SuffixOfType(row.scriptType);
    var b := ScanWindow(lines, 0, START).bodyStart;
    TornRest(row, b);
    TrimmedBody(lines[b..]);
    ContentOfTrimmed(below);
    hide TornFile, TornSurvives, ScanWindow, Trim, RTrim, TrimTail, SplitLines, Join, Torn, BodyLines;
    hide TypeOfSuffix, UniversalNewlines, NameOk;
  }
}
