/** The LaTeX compilation engine: job-name sanitising, source validation and
    the cached, multi-pass compile (latex-mcp/plugins/latex/engine.py). */
module LatexEngine {
  import opened Wrappers
  import opened Text

  /** The blocked literals of `DANGEROUS`, each as the text its regular expression matches */
  const Dangerous: seq<string> := [
    "\\write18", "\\immediate\\write18", "\\openin", "\\openout",
    "\\newwrite", "\\newread", "\\input{/", "\\include{/"
  ]

  const AllowedEngines: set<string> := {"pdflatex", "xelatex", "lualatex"}

  // ---------------------------------------------------------------- _sanitize_name

  /** The characters a job name may keep */
  predicate IsNameChar(c: char)
  {
    IsAlnum(c) || c == '-' || c == '_'
  }

  /** The generator expression of `_sanitize_name`: the name characters of `s`, in order */
  function KeepNameChars(s: string): (r: string)
    ensures |r| <= |s|
    ensures forall i :: 0 <= i < |r| ==> IsNameChar(r[i])
  {
    if s == [] then []
    else if IsNameChar(s[0]) then [s[0]] + KeepNameChars(s[1..])
    else KeepNameChars(s[1..])
  }

  /** `_sanitize_name(s)`: the kept characters, or "doc" when none remain */
  function SanitizeName(s: string): (r: string)
    ensures r != []
    ensures forall i :: 0 <= i < |r| ==> IsNameChar(r[i])
  {
    var kept := KeepNameChars(s);
    if kept == [] then "doc" else kept
  }

  /** Filtering distributes over concatenation, so kept characters stay in their order. */
  lemma {:induction false} KeepConcat(a: string, b: string)
    ensures KeepNameChars(a + b) == KeepNameChars(a) + KeepNameChars(b)
  {
    if a == [] {
      assert a + b == b;
    } else {
      assert (a + b)[0] == a[0] && (a + b)[1..] == a[1..] + b;
      KeepConcat(a[1..], b);
    }
  }

  /** Every name character of `s` is kept as often as it occurs; no other character is. */
  lemma {:induction false} KeepCounts(s: string, c: char)
    ensures multiset(KeepNameChars(s))[c] == if IsNameChar(c) then multiset(s)[c] else 0
  {
    if s != [] {
      KeepCounts(s[1..], c);
      assert s == [s[0]] + s[1..];
    }
  }

  /** A string made only of name characters survives the filter unchanged. */
  lemma {:induction false} KeepAllNameChars(s: string)
    requires forall i :: 0 <= i < |s| ==> IsNameChar(s[i])
    ensures KeepNameChars(s) == s
  {
    if s != [] {
      KeepAllNameChars(s[1..]);
    }
  }

  /** The name is "doc" exactly when `s` has no name character; otherwise it is
      the filtered string. */
  lemma {:induction false} SanitizeNameDefault(s: string)
    ensures SanitizeName(s) == "doc" <==> (forall i :: 0 <= i < |s| ==> !IsNameChar(s[i])) || KeepNameChars(s) == "doc"
  {
    if forall i :: 0 <= i < |s| ==> !IsNameChar(s[i]) {
      KeepNone(s);
    } else {
      var i :| 0 <= i < |s| && IsNameChar(s[i]);
      KeepCounts(s, s[i]);
      assert s[i] in multiset(s);
    }
  }

  lemma {:induction false} KeepNone(s: string)
    requires forall i :: 0 <= i < |s| ==> !IsNameChar(s[i])
    ensures KeepNameChars(s) == []
  {
    if s != [] {
      KeepNone(s[1..]);
    }
  }

  /** `_sanitize_name` is idempotent. */
  lemma SanitizeNameIdempotent(s: string)
    ensures SanitizeName(SanitizeName(s)) == SanitizeName(s)
  {
    KeepAllNameChars(SanitizeName(s));
  }

  // ---------------------------------------------------------------- validate_source

  datatype SourceError =
    | Blocked                 // "Blocked potentially dangerous LaTeX command."
    | MissingDocumentclass    // "Missing \documentclass"
    | MissingBeginDocument    // "Missing \begin{document}"
    | MissingEndDocument      // "Missing \end{document}"

  /** Some blocked literal occurs in `src` */
  predicate HasDangerous(src: string)
  {
    exists k :: 0 <= k < |Dangerous| && Contains(src, Dangerous[k])
  }

  /** Some alternative of the pattern matches at position `i` */
  predicate DangerousAt(src: string, i: nat)
  {
    exists k :: 0 <= k < |Dangerous| && OccursAt(src, Dangerous[k], i)
  }

  /** `DANGEROUS_RE.search(src)` from position `i`: the first position where
      some alternative matches */
  function SearchDangerous(src: string, i: nat): (r: Option<nat>)
    requires i <= |src|
    decreases |src| - i
    ensures r.Some? ==> i <= r.value <= |src| && DangerousAt(src, r.value)
    ensures r.Some? ==> forall j :: i <= j < r.value ==> !DangerousAt(src, j)
    ensures r.None? ==> forall j :: i <= j <= |src| ==> !DangerousAt(src, j)
  {
    if DangerousAt(src, i) then Some(i)
    else if i == |src| then None
    else SearchDangerous(src, i + 1)
  }

  /** `validate_source`: None when the source passes, else the first failed check */
  function ValidateSource(src: string): (r: Option<SourceError>)
    ensures r == Some(Blocked) <==> HasDangerous(src)
    ensures r == None <==>
      && !HasDangerous(src)
      && Contains(src, "\\documentclass")
      && Contains(src, "\\begin{document}")
      && Contains(src, "\\end{document}")
    ensures r == Some(MissingDocumentclass) <==>
      !HasDangerous(src) && !Contains(src, "\\documentclass")
    ensures r == Some(MissingBeginDocument) <==>
      && !HasDangerous(src)
      && Contains(src, "\\documentclass")
      && !Contains(src, "\\begin{document}")
    ensures r == Some(MissingEndDocument) <==>
      && !HasDangerous(src)
      && Contains(src, "\\documentclass")
      && Contains(src, "\\begin{document}")
      && !Contains(src, "\\end{document}")
  {
    SearchFindsDangerous(src);
    ContainsIffFound(src, "\\documentclass");
    ContainsIffFound(src, "\\begin{document}");
    ContainsIffFound(src, "\\end{document}");
    if SearchDangerous(src, 0).Some? then Some(Blocked)
    else if FindFrom(src, "\\documentclass", 0).None? then Some(MissingDocumentclass)
    else if FindFrom(src, "\\begin{document}", 0).None? then Some(MissingBeginDocument)
    else if FindFrom(src, "\\end{document}", 0).None? then Some(MissingEndDocument)
    else None
  }

  /** The left-to-right search finds a match exactly when some blocked literal occurs. */
  lemma SearchFindsDangerous(src: string)
    ensures SearchDangerous(src, 0).Some? <==> HasDangerous(src)
  {
    if HasDangerous(src) {
      var k :| 0 <= k < |Dangerous| && Contains(src, Dangerous[k]);
      var i :| 0 <= i <= |src| - |Dangerous[k]| && OccursAt(src, Dangerous[k], i);
      assert DangerousAt(src, i);
    }
  }

  /** Checking for `\immediate\write18` is redundant: each of its matches contains one of `\write18`. */
  lemma ImmediateWriteSubsumed(src: string)
    requires Contains(src, "\\immediate\\write18")
    ensures Contains(src, "\\write18")
  {
    var p := "\\immediate\\write18";
    var i :| 0 <= i <= |src| - |p| && OccursAt(src, p, i);
    assert src[i + 10..i + 18] == p[10..18] == "\\write18";
    assert OccursAt(src, "\\write18", i + 10);
  }

  // ---------------------------------------------------------------- compile_latex_source

  /** The outcome of one `subprocess.run` of the engine: the process finished
      with its return code and both streams, or the call raised (the 60-second
      `TimeoutExpired`, or the engine binary could not be started), naming the
      exception */
  datatype ProcRun =
    | Finished(returnCode: int, stdout: string, stderr: string)
    | Raised(exception: string)

  /** A run that finished with return code 0 */
  predicate Succeeded(p: ProcRun)
  {
    p.Finished? && p.returnCode == 0
  }

  datatype Stream = Stdout | Stderr

  /** One `(k, v)` pair of `outs` */
  datatype Captured = Captured(stream: Stream, text: string)

  datatype CompileResult = CompileResult(
    url: string, logUrl: string, filename: string, cached: bool, engine: string, hash: string)

  datatype CompileError =
    | InvalidSource(reason: SourceError)
    | UnsupportedEngine(engine: string)
    | CompilationFailed(logUrl: string)
    | EngineRaised(exception: string)  // the exception of an engine run, passed on

  /** `max(1, passes)` */
  function PassLimit(passes: int): (n: nat)
    ensures n >= 1 && n >= passes
    ensures n == 1 || n == passes
  {
    if passes < 1 then 1 else passes
  }

  /** The pass loop ran the engine between one and `limit` times, every run but
      the last succeeded, and a loop that stopped early stopped on a run that
      failed or raised */
  predicate PassesStopped(run: nat -> ProcRun, runs: nat, limit: nat)
  {
    && 1 <= runs <= limit
    && (forall j :: 0 <= j < runs - 1 ==> Succeeded(run(j)))
    && (runs < limit ==> !Succeeded(run(runs - 1)))
  }

  /** `outs` after the first `n` runs; a run that raised appends nothing */
  function Captures(run: nat -> ProcRun, n: nat): (c: seq<Captured>)
    ensures |c| <= 2 * n
  {
    if n == 0 then []
    else match run(n - 1)
      case Raised(_) => Captures(run, n - 1)
      case Finished(_, out, err) => Captures(run, n - 1) + [Captured(Stdout, out), Captured(Stderr, err)]
  }

  /** When the first `n` runs all finished, `outs` holds two entries per run,
      in run order: its standard output, then its standard error. */
  lemma {:induction false} CapturesAt(run: nat -> ProcRun, n: nat)
    requires forall j :: 0 <= j < n ==> run(j).Finished?
    ensures |Captures(run, n)| == 2 * n
    ensures forall j :: 0 <= j < n ==>
      && Captures(run, n)[2 * j] == Captured(Stdout, run(j).stdout)
      && Captures(run, n)[2 * j + 1] == Captured(Stderr, run(j).stderr)
  {
    if n > 0 {
      CapturesAt(run, n - 1);
    }
  }

  function StreamLabel(k: Stream): string
  {
    match k
    case Stdout => "STDOUT"
    case Stderr => "STDERR"
  }

  /** The log sections: one per non-empty captured output, in run order */
  function Sections(outs: seq<Captured>): string
  {
    if outs == [] then "" else Sections(outs[..|outs| - 1]) + Section(outs[|outs| - 1])
  }

  /** One captured output's section; nothing for an empty output */
  function Section(o: Captured): string
  {
    if o.text == "" then "" else "--- " + StreamLabel(o.stream) + " ---\n" + o.text + "\n"
  }

  /** The sections of one more output */
  lemma SectionsStep(outs: seq<Captured>, i: nat)
    requires i < |outs|
    ensures Sections(outs[..i + 1]) == Sections(outs[..i]) + Section(outs[i])
  {
    assert outs[..i + 1][..i] == outs[..i];
  }

  /** Empty outputs add nothing to the log. */
  lemma {:induction false} SectionsSkipEmpty(outs: seq<Captured>)
    requires forall i :: 0 <= i < |outs| ==> outs[i].text == ""
    ensures Sections(outs) == ""
  {
    if outs != [] {
      SectionsSkipEmpty(outs[..|outs| - 1]);
    }
  }

  /** The sections of two runs of outputs are those of the first, then those
      of the second. */
  lemma {:induction false} SectionsConcat(a: seq<Captured>, b: seq<Captured>)
    ensures Sections(a + b) == Sections(a) + Sections(b)
  {
    if b != [] {
      var b' := b[..|b| - 1];
      SectionsConcat(a, b');
      assert (a + b)[..|a + b| - 1] == a + b';
      AppendAssoc(Sections(a), Sections(b'), Section(b[|b| - 1]));
    } else {
      assert a + b == a;
    }
  }

  /** An empty output, wherever it stands, leaves the log as it is. */
  lemma SectionsDropEmpty(a: seq<Captured>, o: Captured, b: seq<Captured>)
    requires o.text == ""
    ensures Sections(a + [o] + b) == Sections(a + b)
  {
    assert Sections(a + [o]) == Sections(a) by {
      assert (a + [o])[..|a|] == a;
      assert Sections(a) + Section(o) == Sections(a);
    }
    SectionsConcat(a + [o], b);
    SectionsConcat(a, b);
  }

  function LogHeader(engine: string, job: string): string
  {
    "Engine: " + engine + "\nJob: " + job + "\n\n"
  }

  /** `filename or "doc"` */
  function BaseName(filename: Option<string>): string
  {
    match filename
    case Some(f) => if f == "" then "doc" else f
    case None => "doc"
  }

  /** `job`: the sanitised base name, an underscore and the cache key */
  function JobName(filename: Option<string>, key: string): (job: string)
  {
    SanitizeName(BaseName(filename)) + "_" + key
  }

  /** The glob `*_{key}.pdf` */
  predicate MatchesKey(name: string, key: string)
  {
    EndsWith(name, "_" + key + ".pdf")
  }

  /** `next(COMPILED.glob(f"*_{key}.pdf"), None)` over the directory listing */
  function FindCached(listing: seq<string>, key: string): (r: Option<nat>)
    ensures r.Some? ==> r.value < |listing| && MatchesKey(listing[r.value], key)
  {
    if listing == [] then None
    else if MatchesKey(listing[0], key) then Some(0)
    else match FindCached(listing[1..], key)
      case Some(j) => Some(j + 1)
      case None => None
  }

  /** The PDF found is the first in the listing that matches the key, and none
      is found only when none matches. */
  lemma {:induction false} FindCachedFirst(listing: seq<string>, key: string)
    ensures FindCached(listing, key).Some? ==>
      forall j :: 0 <= j < FindCached(listing, key).value ==> !MatchesKey(listing[j], key)
    ensures FindCached(listing, key).None? <==> forall j :: 0 <= j < |listing| ==> !MatchesKey(listing[j], key)
  {
    if listing != [] && !MatchesKey(listing[0], key) {
      FindCachedFirst(listing[1..], key);
      assert forall j :: 1 <= j < |listing| ==> listing[j] == listing[1..][j - 1];
    }
  }

  /** The pass loop: run the engine up to `limit` times, capturing both streams of
      each run, and stop after the first run with a nonzero return code; a run
      that raises ends the loop with its exception. */
  method RunPasses(run: nat -> ProcRun, limit: nat) returns (outs: seq<Captured>, runs: nat, raised: Option<string>)
    requires limit >= 1
    ensures PassesStopped(run, runs, limit)
    ensures outs == Captures(run, runs)
    ensures raised == if run(runs - 1).Raised? then Some(run(runs - 1).exception) else None
  {
    outs, runs, raised := [], 0, None;
    while runs < limit
      invariant runs <= limit
      invariant outs == Captures(run, runs)
      invariant forall j :: 0 <= j < runs ==> Succeeded(run(j))
    {
      var res := run(runs);
      runs := runs + 1;
      match res
      case Raised(e) =>
        return outs, runs, Some(e);
      case Finished(code, out, err) =>
        outs := outs + [Captured(Stdout, out), Captured(Stderr, err)];
        if code != 0 {
          return;
        }
    }
  }

  /** The log text: the header, then one section per non-empty output */
  method AssembleLog(engine: string, job: string, outs: seq<Captured>) returns (logText: string)
    ensures logText == LogHeader(engine, job) + Sections(outs)
  {
    logText := LogHeader(engine, job);
    var i := 0;
    while i < |outs|
      invariant i <= |outs|
      invariant logText == LogHeader(engine, job) + Sections(outs[..i])
    {
      if outs[i].text != "" {
        logText := logText + Section(outs[i]);
      }
      SectionsStep(outs, i);
      AppendAssoc(LogHeader(engine, job), Sections(outs[..i]), Section(outs[i]));
      i := i + 1;
    }
    assert outs[..i] == outs;
  }

  /** A fresh compilation under job name `job`: the pass loop, then the log
      written under the job's name and the result, which is a failure when no
      PDF was produced. A run that raised passes its exception on before any
      log is written. */
  method CompileFresh(job: string, engine: string, key: string, passes: int, baseUrl: string,
                      run: nat -> ProcRun, pdfProduced: bool)
    returns (r: Result<CompileResult, CompileError>, runs: nat, log: Option<string>)
    ensures PassesStopped(run, runs, PassLimit(passes))
    ensures run(runs - 1).Raised? ==> r == Failure(EngineRaised(run(runs - 1).exception)) && log == None
    ensures run(runs - 1).Finished? ==>
      && log == Some(LogHeader(engine, job) + Sections(Captures(run, runs)))
      && r == if pdfProduced
              then Success(CompileResult(baseUrl + "/latex/compiled/" + job + ".pdf",
                                         baseUrl + "/latex/logs/" + job + ".txt",
                                         job + ".pdf", false, engine, key))
              else Failure(CompilationFailed(baseUrl + "/latex/logs/" + job + ".txt"))
  {
    var outs, raised;
    outs, runs, raised := RunPasses(run, PassLimit(passes));
    if raised.Some? {
      return Failure(EngineRaised(raised.value)), runs, None;
    }
    var logText := AssembleLog(engine, job, outs);
    log := Some(logText);
    if !pdfProduced {
      return Failure(CompilationFailed(baseUrl + "/latex/logs/" + job + ".txt")), runs, log;
    }
    r := Success(CompileResult(baseUrl + "/latex/compiled/" + job + ".pdf",
                               baseUrl + "/latex/logs/" + job + ".txt",
                               job + ".pdf", false, engine, key));
  }

  /** The result served from the cached PDF `name` */
  function CachedResult(baseUrl: string, name: string, engine: string, key: string): CompileResult
    requires |name| >= 4
  {
    CompileResult(baseUrl + "/latex/compiled/" + name, baseUrl + "/latex/logs/" + name[..|name| - 4] + ".txt",
                  name, true, engine, key)
  }

  /** `compile_latex_source` past the source and engine checks: the first
      cached PDF for the key when caching is on, else a fresh compilation */
  method CompileAllowed(
    filename: Option<string>, engine: string, key: string, enableCache: bool, passes: int,
    baseUrl: string, listing: seq<string>, run: nat -> ProcRun, pdfProduced: bool)
    returns (r: Result<CompileResult, CompileError>, runs: nat, log: Option<string>)
    ensures enableCache && FindCached(listing, key).Some? ==>
      && |listing[FindCached(listing, key).value]| >= 4
      && r == Success(CachedResult(baseUrl, listing[FindCached(listing, key).value], engine, key))
      && runs == 0 && log == None
    ensures r.Success? && r.value.cached ==> runs == 0 && r.value.filename in listing
    ensures runs > 0 ==> PassesStopped(run, runs, PassLimit(passes))
    ensures !(enableCache && FindCached(listing, key).Some?) ==>
      var job := JobName(filename, key);
      && runs > 0
      && (run(runs - 1).Raised? ==> r == Failure(EngineRaised(run(runs - 1).exception)) && log == None)
      && (run(runs - 1).Finished? ==> log == Some(LogHeader(engine, job) + Sections(Captures(run, runs))))
      && (run(runs - 1).Finished? ==> r == if pdfProduced
              then Success(CompileResult(baseUrl + "/latex/compiled/" + job + ".pdf",
                                         baseUrl + "/latex/logs/" + job + ".txt",
                                         job + ".pdf", false, engine, key))
              else Failure(CompilationFailed(baseUrl + "/latex/logs/" + job + ".txt")))
  {
    var existing := FindCached(listing, key);
    if enableCache && existing.Some? {
      var name := listing[existing.value];
      return Success(CachedResult(baseUrl, name, engine, key)), 0, None;
    }
    var job := JobName(filename, key);
    r, runs, log := CompileFresh(job, engine, key, passes, baseUrl, run, pdfProduced);
  }

  /** `compile_latex_source` past the source validation: the engine
      whitelist, then the cache, then a fresh compilation */
  method CompileValidated(
    source: string, filename: Option<string>, engine: string, enableCache: bool, passes: int,
    baseUrl: string, hash: string -> string, listing: seq<string>, run: nat -> ProcRun, pdfProduced: bool)
    returns (r: Result<CompileResult, CompileError>, runs: nat, log: Option<string>)
    ensures engine !in AllowedEngines ==> r == Failure(UnsupportedEngine(engine)) && runs == 0 && log == None
    ensures engine in AllowedEngines && enableCache && FindCached(listing, hash(source + engine)).Some? ==>
      var name := listing[FindCached(listing, hash(source + engine)).value];
      && r == Success(CompileResult(baseUrl + "/latex/compiled/" + name,
                                    baseUrl + "/latex/logs/" + name[..|name| - 4] + ".txt",
                                    name, true, engine, hash(source + engine)))
      && runs == 0 && log == None
    ensures r.Success? && r.value.cached ==> runs == 0 && r.value.filename in listing
    ensures runs > 0 ==> PassesStopped(run, runs, PassLimit(passes))
    ensures engine in AllowedEngines && !(enableCache && FindCached(listing, hash(source + engine)).Some?) ==>
      var job := JobName(filename, hash(source + engine));
      && runs > 0
      && (run(runs - 1).Raised? ==> r == Failure(EngineRaised(run(runs - 1).exception)) && log == None)
      && (run(runs - 1).Finished? ==> log == Some(LogHeader(engine, job) + Sections(Captures(run, runs))))
      && (run(runs - 1).Finished? ==> r == if pdfProduced
              then Success(CompileResult(baseUrl + "/latex/compiled/" + job + ".pdf",
                                         baseUrl + "/latex/logs/" + job + ".txt",
                                         job + ".pdf", false, engine, hash(source + engine)))
              else Failure(CompilationFailed(baseUrl + "/latex/logs/" + job + ".txt")))
  {
    if engine !in AllowedEngines {
      return Failure(UnsupportedEngine(engine)), 0, None;
    }
    r, runs, log := CompileAllowed(filename, engine, hash(source + engine), enableCache, passes, baseUrl, listing, run, pdfProduced);
  }

  /** `compile_latex_source`. The SHA-256 prefix `_hash`, the compiled directory's
      listing, each engine run and whether the PDF exists afterwards are inputs.
      Also returns how many engine runs happened and the log written, if any. */
  method CompileLatexSource(
    source: string, filename: Option<string>, engine: string, enableCache: bool, passes: int,
    baseUrl: string, hash: string -> string, listing: seq<string>, run: nat -> ProcRun, pdfProduced: bool)
    returns (r: Result<CompileResult, CompileError>, runs: nat, log: Option<string>)
    ensures ValidateSource(source).Some? ==> r == Failure(InvalidSource(ValidateSource(source).value))
    ensures ValidateSource(source).None? && engine !in AllowedEngines ==> r == Failure(UnsupportedEngine(engine))
    ensures r.Failure? && (r.error.InvalidSource? || r.error.UnsupportedEngine?) ==> runs == 0 && log == None
    // a cache hit serves the first matching file and compiles nothing
    ensures ValidateSource(source).None? && engine in AllowedEngines && enableCache
            && FindCached(listing, hash(source + engine)).Some? ==>
      var name := listing[FindCached(listing, hash(source + engine)).value];
      && r == Success(CompileResult(baseUrl + "/latex/compiled/" + name,
                                    baseUrl + "/latex/logs/" + name[..|name| - 4] + ".txt",
                                    name, true, engine, hash(source + engine)))
      && runs == 0 && log == None
    ensures r.Success? && r.value.cached ==> runs == 0 && r.value.filename in listing
    // otherwise the engine runs at least once, at most max(1, passes) times, stopping at the first failure
    ensures runs > 0 ==> PassesStopped(run, runs, PassLimit(passes))
    ensures ValidateSource(source).None? && engine in AllowedEngines
            && !(enableCache && FindCached(listing, hash(source + engine)).Some?) ==>
      var job := JobName(filename, hash(source + engine));
      && runs > 0
      && (run(runs - 1).Raised? ==> r == Failure(EngineRaised(run(runs - 1).exception)) && log == None)
      && (run(runs - 1).Finished? ==> log == Some(LogHeader(engine, job) + Sections(Captures(run, runs))))
      && (run(runs - 1).Finished? ==> r == if pdfProduced
              then Success(CompileResult(baseUrl + "/latex/compiled/" + job + ".pdf",
                                         baseUrl + "/latex/logs/" + job + ".txt",
                                         job + ".pdf", false, engine, hash(source + engine)))
              else Failure(CompilationFailed(baseUrl + "/latex/logs/" + job + ".txt")))
  {
    var invalid := ValidateSource(source);
    if invalid.Some? {
      return Failure(InvalidSource(invalid.value)), 0, None;
    }
    r, runs, log := CompileValidated(source, filename, engine, enableCache, passes, baseUrl, hash, listing, run, pdfProduced);
  }
}
