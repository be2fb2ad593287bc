/** The LaTeX plugin's tools (latex-mcp/plugins/latex/__init__.py): template
    listing and the compile tool, which prunes old files before compiling. */
module LatexPlugin {
  import opened Wrappers
  import opened Text
  import LatexEngine

  // ---------------------------------------------------------------- list_templates

  /** A template file: its stem, its full name and its text already split into lines */
  datatype TemplateFile = TemplateFile(stem: string, name: string, lines: seq<string>)

  datatype TemplateEntry = TemplateEntry(name: string, filename: string, description: string)

  const DescriptionTag := "% Description:"
  const NoDescription := "No description"
  const ScannedLines := 10

  /** `line.strip().startswith("% Description:")` */
  predicate IsDescriptionLine(line: string)
  {
    StartsWith(Strip(line), DescriptionTag)
  }

  /** `line.split(":", 1)[1]`; None where Python raises IndexError (no colon) */
  function AfterFirstColon(line: string): (r: Option<string>)
    ensures r.Some? <==> Contains(line, ":")
  {
    ContainsIffFound(line, ":");
    match FindFrom(line, ":", 0)
    case Some(i) => Some(line[i + 1..])
    case None => None
  }

  /** `lines[:10]` */
  function Head(lines: seq<string>): (h: seq<string>)
    ensures |h| <= ScannedLines && |h| <= |lines| && h == lines[..|h|]
    ensures |lines| >= ScannedLines ==> |h| == ScannedLines
    ensures |lines| < ScannedLines ==> h == lines
  {
    if |lines| <= ScannedLines then lines else lines[..ScannedLines]
  }

  /** The index of the first line satisfying `P` */
  function FirstWhere(lines: seq<string>, P: string -> bool): (r: Option<nat>)
    ensures r.Some? ==> r.value < |lines| && P(lines[r.value])
  {
    if lines == [] then None
    else if P(lines[0]) then Some(0)
    else match FirstWhere(lines[1..], P)
      case Some(k) => Some(k + 1)
      case None => None
  }

  /** The line found is the first that satisfies `P`, and none is found only
      when none does. */
  lemma {:induction false} FirstWhereFirst(lines: seq<string>, P: string -> bool)
    ensures FirstWhere(lines, P).Some? ==>
      forall k :: 0 <= k < FirstWhere(lines, P).value ==> !P(lines[k])
    ensures FirstWhere(lines, P).None? <==> forall k :: 0 <= k < |lines| ==> !P(lines[k])
  {
    if lines != [] && !P(lines[0]) {
      FirstWhereFirst(lines[1..], P);
      assert forall k :: 1 <= k < |lines| ==> lines[k] == lines[1..][k - 1];
    }
  }

  /** A satisfying line with none before it is the one found. */
  lemma FirstWhereAt(lines: seq<string>, P: string -> bool, j: nat)
    requires j < |lines| && P(lines[j])
    requires forall k :: 0 <= k < j ==> !P(lines[k])
    ensures FirstWhere(lines, P) == Some(j)
  {
    FirstWhereFirst(lines, P);
  }

  /** The description `list_templates` reports for a template's lines */
  function Describe(lines: seq<string>): string
  {
    match FirstWhere(Head(lines), IsDescriptionLine)
    case None => NoDescription
    case Some(k) => DescriptionText(Head(lines)[k])
  }

  /** `line.split(":", 1)[1].strip()` on a description line */
  function DescriptionText(line: string): string
    requires IsDescriptionLine(line)
  {
    DescriptionLineHasColon(line);
    Strip(AfterFirstColon(line).value)
  }

  /** A description line always has a colon, and its first colon is the one
      that ends the tag: the text after it is what follows the tag. */
  lemma DescriptionLineHasColon(line: string)
    requires IsDescriptionLine(line)
    ensures AfterFirstColon(line) == Some(LStrip(line)[|DescriptionTag|..])
  {
    var l := LStrip(line);
    var lead := |line| - |l|;
    TagAfterLeadingSpace(line);
    TagColons(l);
    LStripSpaces(line);
    forall j | 0 <= j < lead + 13
      ensures line[j] != ':'
    {
      if j < lead {
        assert IsSpace(line[j]);
      } else {
        assert line[j] == l[j - lead];
      }
    }
    FirstColon(line, lead + 13);
    assert line[lead + 14..] == l[14..];
  }

  /** The tag follows the leading whitespace of a description line. */
  lemma TagAfterLeadingSpace(line: string)
    requires IsDescriptionLine(line)
    ensures |LStrip(line)| >= 14 && LStrip(line)[..14] == DescriptionTag
  {
    var l := LStrip(line);
    var s := Strip(line);
    assert s == RStrip(l) == l[..|s|];
    assert l[..14] == s[..14];
  }

  /** The tag holds exactly one colon, its last character. */
  lemma TagColons(l: string)
    requires |l| >= 14 && l[..14] == DescriptionTag
    ensures l[13] == ':' && forall j :: 0 <= j < 13 ==> l[j] != ':'
  {
    assert forall j :: 0 <= j < 14 ==> l[j] == DescriptionTag[j];
  }

  /** The first colon of `line` is at index `c`. */
  lemma FirstColon(line: string, c: nat)
    requires c < |line| && line[c] == ':'
    requires forall j :: 0 <= j < c ==> line[j] != ':'
    ensures FindFrom(line, ":", 0) == Some(c)
  {
    assert OccursAt(line, ":", c);
    forall j | 0 <= j < c
      ensures !OccursAt(line, ":", j)
    {
      assert line[j] != ':';
    }
    FindFromAt(line, ":", 0, c);
  }

  /** Only the first ten lines count: lines after them never change the description. */
  lemma OnlyFirstTenLines(a: seq<string>, b: seq<string>)
    requires a[..if |a| < ScannedLines then |a| else ScannedLines] == b[..if |b| < ScannedLines then |b| else ScannedLines]
    ensures Describe(a) == Describe(b)
  {
    assert Head(a) == Head(b);
  }

  /** The first description line among the first ten wins, and its text after
      the tag, stripped, is the description; without one it is "No description". */
  lemma DescribeChoosesFirst(lines: seq<string>, k: nat)
    requires k < |lines| && k < ScannedLines && IsDescriptionLine(lines[k])
    requires forall j :: 0 <= j < k ==> !IsDescriptionLine(lines[j])
    ensures Describe(lines) == Strip(LStrip(lines[k])[|DescriptionTag|..])
  {
    var h := Head(lines);
    assert h[k] == lines[k];
    FirstWhereAt(h, IsDescriptionLine, k);
    DescriptionLineHasColon(lines[k]);
  }

  lemma DescribeDefault(lines: seq<string>)
    requires forall j :: 0 <= j < |lines| && j < ScannedLines ==> !IsDescriptionLine(lines[j])
    ensures Describe(lines) == NoDescription
  {
    var h := Head(lines);
    assert forall j :: 0 <= j < |h| ==> h[j] == lines[j];
    FirstWhereFirst(h, IsDescriptionLine);
  }

  function Entry(t: TemplateFile): TemplateEntry
  {
    TemplateEntry(t.stem, t.name, Describe(t.lines))
  }

  /** The scan of one template: the first ten lines, up to the first description line */
  method ScanDescription(text: seq<string>) returns (desc: string)
    ensures desc == Describe(text)
  {
    desc := NoDescription;
    var lines := Head(text);
    var j := 0;
    while j < |lines|
      invariant j <= |lines|
      invariant forall k :: 0 <= k < j ==> !IsDescriptionLine(lines[k])
      invariant desc == NoDescription
    {
      if IsDescriptionLine(lines[j]) {
        desc := DescriptionText(lines[j]);
        ScanFound(text, j);
        return;
      }
      j := j + 1;
    }
    ScanNotFound(text);
  }

  /** A description line among the first ten, with none before it, gives the description. */
  lemma ScanFound(text: seq<string>, j: nat)
    requires j < |Head(text)| && IsDescriptionLine(Head(text)[j])
    requires forall k :: 0 <= k < j ==> !IsDescriptionLine(Head(text)[k])
    ensures Describe(text) == DescriptionText(Head(text)[j])
  {
    FirstWhereAt(Head(text), IsDescriptionLine, j);
  }

  /** Without a description line among the first ten, the description is the default. */
  lemma ScanNotFound(text: seq<string>)
    requires forall k :: 0 <= k < |Head(text)| ==> !IsDescriptionLine(Head(text)[k])
    ensures Describe(text) == NoDescription
  {
    FirstWhereFirst(Head(text), IsDescriptionLine);
  }

  /** `list_templates` over the template files in directory order */
  method ListTemplates(files: seq<TemplateFile>) returns (out: seq<TemplateEntry>)
    ensures |out| == |files|
    ensures forall i :: 0 <= i < |files| ==> out[i] == Entry(files[i])
  {
    out := [];
    for i := 0 to |files|
      invariant |out| == i
      invariant forall k :: 0 <= k < i ==> out[k] == Entry(files[k])
    {
      var t := files[i];
      var desc := ScanDescription(t.lines);
      out := out + [TemplateEntry(t.stem, t.name, desc)];
    }
  }

  // ---------------------------------------------------------------- compile_latex

  function Cutoff(now: real, maxAgeHours: int): real
  {
    now - (maxAgeHours as real) * 3600.0
  }

  /** A file of the compiled or the logs directory with its modification time in seconds */
  datatype DirEntry = DirEntry(name: string, mtime: real)

  /** Whether `cleanup_old_files` deletes a file: it matches the glob and is older than the cutoff */
  predicate Expired(e: DirEntry, ext: string, cutoff: real)
  {
    EndsWith(e.name, ext) && e.mtime < cutoff
  }

  /** The directory after `cleanup_old_files` has unlinked the expired files */
  function Prune(dir: seq<DirEntry>, ext: string, cutoff: real): (kept: seq<DirEntry>)
    ensures forall e :: e in kept <==> e in dir && !Expired(e, ext, cutoff)
  {
    if dir == [] then []
    else Prune(dir[..|dir| - 1], ext, cutoff)
         + (if Expired(dir[|dir| - 1], ext, cutoff) then [] else [dir[|dir| - 1]])
  }

  function Names(dir: seq<DirEntry>): (names: seq<string>)
    ensures |names| == |dir| && forall i :: 0 <= i < |dir| ==> names[i] == dir[i].name
  {
    if dir == [] then [] else Names(dir[..|dir| - 1]) + [dir[|dir| - 1].name]
  }

  /** The `compile_latex` tool: `cleanup_old_files()` first (PDFs and logs older than
      `maxAgeHours` before `now`), then `compile_latex_source` on the pruned directory.
      Returns the result and the directories as they are after the cleanup. */
  method CompileLatex(
    compiled: seq<DirEntry>, logs: seq<DirEntry>, now: real, maxAgeHours: int,
    source: string, filename: Option<string>, engine: string, enableCache: bool, passes: int,
    baseUrl: string, hash: string -> string, run: nat -> LatexEngine.ProcRun, pdfProduced: bool)
    returns (r: Result<LatexEngine.CompileResult, LatexEngine.CompileError>,
             compiledAfter: seq<DirEntry>, logsAfter: seq<DirEntry>)
    ensures var cutoff := Cutoff(now, maxAgeHours);
      && compiledAfter == Prune(compiled, ".pdf", cutoff)
      && logsAfter == Prune(logs, ".txt", cutoff)
    // the compilation sees the directory as the cleanup left it
    ensures LatexEngine.ValidateSource(source).Some? ==>
      r == Failure(LatexEngine.InvalidSource(LatexEngine.ValidateSource(source).value))
    ensures LatexEngine.ValidateSource(source).None? && engine in LatexEngine.AllowedEngines ==>
      (r.Success? && r.value.cached <==>
         enableCache && LatexEngine.FindCached(Names(compiledAfter), hash(source + engine)).Some?)
    // a cached result is never served from a PDF old enough for the cleanup to delete
    ensures r.Success? && r.value.cached ==>
      exists e :: e in compiled && e.name == r.value.filename
                  && !Expired(e, ".pdf", Cutoff(now, maxAgeHours))
  {
    var cutoff := Cutoff(now, maxAgeHours);
    compiledAfter := Prune(compiled, ".pdf", cutoff);
    logsAfter := Prune(logs, ".txt", cutoff);
    var listing := Names(compiledAfter);
    var runs, log;
    r, runs, log := LatexEngine.CompileLatexSource(
      source, filename, engine, enableCache, passes, baseUrl, hash, listing, run, pdfProduced);
    if r.Success? && r.value.cached {
      NamedKept(compiled, ".pdf", cutoff, r.value.filename);
    }
  }

  /** A name listed after the cleanup belongs to a file that was there and survived it. */
  lemma NamedKept(dir: seq<DirEntry>, ext: string, cutoff: real, name: string)
    requires name in Names(Prune(dir, ext, cutoff))
    ensures exists e :: e in dir && e.name == name && !Expired(e, ext, cutoff)
  {
    var kept := Prune(dir, ext, cutoff);
    var k :| 0 <= k < |kept| && Names(kept)[k] == name;
    assert kept[k] in kept;
  }
}
