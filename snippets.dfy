/** The LaTeX snippet system (latex-mcp/plugins/latex/snippets.py) over snippet
    definitions that are already parsed from their JSON files. */
module Snippets {
  import opened Wrappers
  import opened Text

  /** A keyword-argument or default value, as JSON can deliver it */
  datatype Value = Str(s: string) | Num(n: int) | Flag(b: bool) | Null

  /** Python truthiness */
  predicate Truthy(v: Value)
  {
    match v
    case Str(s) => s != ""
    case Num(n) => n != 0
    case Flag(b) => b
    case Null => false
  }

  /** `str(v)` */
  function ToStr(v: Value): string
  {
    match v
    case Str(s) => s
    case Num(n) => IntToString(n)
    case Flag(b) => if b then "True" else "False"
    case Null => "None"
  }

  /** One entry of a snippet's `parameters` list */
  datatype Param = Param(name: string, default: Option<Value>, required: bool)

  /** A parsed snippet file; a key the file lacks is None */
  datatype Snippet = Snippet(
    name: Option<string>, description: Option<string>,
    parameters: Option<seq<Param>>, template: Option<string>)

  /** `snippet.get("parameters", [])` */
  function ParamsOf(s: Snippet): seq<Param>
  {
    if s.parameters.Some? then s.parameters.value else []
  }

  // ---------------------------------------------------------------- get_snippet_info, list_available_snippets

  datatype SnippetInfo = SnippetInfo(name: string, description: string, parameters: seq<Param>, template: string)

  /** A `KeyError` naming the missing key */
  datatype KeyError = MissingKey(key: string)

  /** `get_snippet_info` on a loaded snippet: the keys are read in the order
      name, description, parameters, template */
  function GetSnippetInfo(s: Snippet): (r: Result<SnippetInfo, KeyError>)
    ensures r.Success? <==> s.name.Some? && s.description.Some? && s.template.Some?
    ensures r.Success? ==> r.value.parameters == (if s.parameters.None? then [] else s.parameters.value)
    ensures r.Success? ==> r.value.name == s.name.value && r.value.description == s.description.value
                           && r.value.template == s.template.value
    ensures r == Failure(MissingKey("name")) <==> s.name.None?
    ensures r == Failure(MissingKey("description")) <==> s.name.Some? && s.description.None?
    ensures r == Failure(MissingKey("template")) <==>
      s.name.Some? && s.description.Some? && s.template.None?
  {
    if s.name.None? then Failure(MissingKey("name"))
    else if s.description.None? then Failure(MissingKey("description"))
    else if s.template.None? then Failure(MissingKey("template"))
    else Success(SnippetInfo(s.name.value, s.description.value, ParamsOf(s), s.template.value))
  }

  datatype SnippetSummary = SnippetSummary(name: string, description: string, parameters: nat)

  /** A snippet file that `list_available_snippets` reports: it parsed (Some) and
      has both a name and a description */
  predicate Listable(f: Option<Snippet>)
  {
    f.Some? && f.value.name.Some? && f.value.description.Some?
  }

  function Summary(f: Option<Snippet>): SnippetSummary
    requires Listable(f)
  {
    SnippetSummary(f.value.name.value, f.value.description.value, |ParamsOf(f.value)|)
  }

  /** The summaries of the listable files, in directory order */
  function Listed(files: seq<Option<Snippet>>): seq<SnippetSummary>
  {
    if files == [] then []
    else
      var last := files[|files| - 1];
      Listed(files[..|files| - 1]) + (if Listable(last) then [Summary(last)] else [])
  }

  /** A summary is listed exactly when some listable file produces it. */
  lemma {:induction false} ListedExactly(files: seq<Option<Snippet>>, x: SnippetSummary)
    ensures x in Listed(files) <==> exists i :: 0 <= i < |files| && Listable(files[i]) && Summary(files[i]) == x
  {
    if files != [] {
      var init := files[..|files| - 1];
      ListedExactly(init, x);
      assert forall i :: 0 <= i < |init| ==> init[i] == files[i];
    }
  }

  /** Skipped files never make the list longer: at most one entry per file. */
  lemma {:induction false} ListedLength(files: seq<Option<Snippet>>)
    ensures |Listed(files)| <= |files|
    ensures (forall i :: 0 <= i < |files| ==> Listable(files[i])) ==> |Listed(files)| == |files|
  {
    if files != [] {
      ListedLength(files[..|files| - 1]);
    }
  }

  /** `list_available_snippets` over the snippet files in directory order; a file
      whose JSON does not parse is None. */
  method ListAvailableSnippets(files: seq<Option<Snippet>>) returns (out: seq<SnippetSummary>)
    ensures out == Listed(files)
  {
    out := [];
    var i := 0;
    while i < |files|
      invariant i <= |files|
      invariant out == Listed(files[..i])
    {
      var f := files[i];
      if f.Some? && f.value.name.Some? && f.value.description.Some? {
        out := out + [SnippetSummary(f.value.name.value, f.value.description.value, |ParamsOf(f.value)|)];
      }
      assert files[..i + 1][..i] == files[..i];
      i := i + 1;
    }
    assert files[..i] == files;
  }

  // ---------------------------------------------------------------- _handle_conditionals

  /** The character classes of the block header: `\s` and `\w` */
  datatype CharClass = Space | Word

  predicate InClass(c: char, k: CharClass)
  {
    match k
    case Space => IsSpace(c)
    case Word => IsWordChar(c)
  }

  /** Length of the longest prefix of `s` whose characters are all in class `k` */
  function Span(s: string, k: CharClass): (n: nat)
    ensures n <= |s|
  {
    if s != [] && InClass(s[0], k) then 1 + Span(s[1..], k) else 0
  }

  /** A match of `\{\{#if\s+(\w+)\}\}(.*?)\{\{/if\}\}` at the start of a string */
  datatype Block = Block(param: string, body: string, len: nat)

  const Opener := "{{#if"
  const Closer := "{{/if}}"

  /** The header of a block at the start of `t`: the opener, at least one
      space, a word and `}}`; the word and the index just after the header */
  function Header(t: string): (r: Option<(string, nat)>)
    ensures r.Some? ==> StartsWith(t, Opener) && r.value.1 <= |t|
  {
    if !StartsWith(t, Opener) then None
    else
      var ws := Span(t[5..], Space);
      var w := Span(t[5 + ws..], Word);
      var open := 5 + ws + w + 2;
      if ws == 0 || w == 0 || open > |t| || t[5 + ws + w..open] != "}}" then None
      else Some((t[5 + ws..5 + ws + w], open))
  }

  /** The regular expression tried at position 0 of `t`: the header, then the
      body up to the NEAREST closer */
  function MatchBlock(t: string): (r: Option<Block>)
    ensures r.Some? ==> 0 < r.value.len <= |t|
    ensures r.Some? ==> StartsWith(t, Opener)
  {
    match Header(t)
    case None => None
    case Some((param, open)) =>
      match FindFrom(t, Closer, open)
      case None => None
      case Some(c) => Some(Block(param, t[open..c], c + 7))
  }

  /** `params.get(name, "")` */
  function Lookup(params: map<string, Value>, name: string): Value
  {
    if name in params then params[name] else Str("")
  }

  /** `_handle_conditionals`: `re.sub` scans left to right; a matched block becomes
      its body when the parameter is truthy and vanishes otherwise, and text
      where no block matches is copied one character at a time. */
  function HandleConditionals(t: string, params: map<string, Value>): string
    decreases |t|
  {
    if t == [] then []
    else match MatchBlock(t)
      case Some(b) => (if Truthy(Lookup(params, b.param)) then b.body else "") + HandleConditionals(t[b.len..], params)
      case None => [t[0]] + HandleConditionals(t[1..], params)
  }

  /** A template without any `{{#if` is returned unchanged. */
  lemma {:induction false} NoBlocksUnchanged(t: string, params: map<string, Value>)
    requires !Contains(t, Opener)
    ensures HandleConditionals(t, params) == t
  {
    if t != [] {
      if StartsWith(t, Opener) {
        assert OccursAt(t, Opener, 0);
        assert false;
      }
      if Contains(t[1..], Opener) {
        assert t[1..|t|] == t[1..];
        ContainsSlice(t, Opener, 1, |t|);
        assert false;
      }
      NoBlocksUnchanged(t[1..], params);
    }
  }

  /** An opener with no closer anywhere after it is left as it is: a template
      without any `{{/if}}` is returned unchanged. */
  lemma {:induction false} UnclosedUnchanged(t: string, params: map<string, Value>)
    requires !Contains(t, Closer)
    ensures HandleConditionals(t, params) == t
  {
    if t != [] {
      assert MatchBlock(t).None?;
      if Contains(t[1..], Closer) {
        assert t[1..|t|] == t[1..];
        ContainsSlice(t, Closer, 1, |t|);
        assert false;
      }
      UnclosedUnchanged(t[1..], params);
    }
  }

  /** A well-formed block is replaced by its body when the parameter is truthy in
      `params` and removed otherwise; the body ends at the nearest closer, and a
      parameter missing from `params` counts as false whatever its declared default.
      `t` is the block followed by `rest`: `{{#if`, the spaces `sp`, the word
      `name`, `}}`, `body`, and `{{/if}}` at index `c` (PiecesOfBlock shows that
      the concatenation of these pieces is such a text). */
  lemma BlockRendered(t: string, sp: string, name: string, body: string, c: nat, rest: string, params: map<string, Value>)
    requires sp != [] && forall i :: 0 <= i < |sp| ==> IsSpace(sp[i])
    requires name != [] && forall i :: 0 <= i < |name| ==> IsWordChar(name[i])
    requires !Contains(body, Closer)
    requires BlockPieces(t, sp, name, body, c) && t[c + 7..] == rest
    ensures HandleConditionals(t, params)
         == (if name in params && Truthy(params[name]) then body else "") + HandleConditionals(rest, params)
  {
    MatchesBlock(t, sp, name, body, c);
    assert Truthy(Lookup(params, name)) == (name in params && Truthy(params[name]));
    assert HandleConditionals(t, params)
        == (if Truthy(Lookup(params, name)) then body else "") + HandleConditionals(t[c + 7..], params);
  }

  /** `t` holds, from its start, the opener, `sp`, `name`, `}}`, `body` and a
      closer at index `c` */
  predicate BlockPieces(t: string, sp: string, name: string, body: string, c: nat)
  {
    var n := 5 + |sp| + |name|;
    && n + 2 + |body| == c && c + 7 <= |t|
    && t[..5] == Opener && t[5..5 + |sp|] == sp && t[5 + |sp|..n] == name
    && t[n..n + 2] == "}}" && t[n + 2..c] == body && t[c..c + 7] == Closer
  }

  lemma PiecesOfBlock(sp: string, name: string, body: string, rest: string)
    ensures var t := Opener + sp + name + "}}" + body + Closer + rest;
      var c := 5 + |sp| + |name| + 2 + |body|;
      BlockPieces(t, sp, name, body, c) && |t| == c + 7 + |rest| && t[c + 7..] == rest
  {
    var h := Opener + sp + name + "}}";
    var t := h + body + Closer + rest;
    var n := 5 + |sp| + |name|;
    var c := n + 2 + |body|;
    assert t[..|h|] == h && t[|h|..] == body + Closer + rest;
    assert h[..5] == Opener && h[5..5 + |sp|] == sp && h[5 + |sp|..n] == name && h[n..] == "}}";
    assert t[..5] == h[..5];
    assert t[5..5 + |sp|] == h[5..5 + |sp|];
    assert t[5 + |sp|..n] == h[5 + |sp|..n];
    assert t[n..n + 2] == h[n..];
    assert t[n + 2..c] == (body + Closer + rest)[..|body|];
    assert t[c..c + 7] == (body + Closer + rest)[|body|..|body| + 7];
    assert t[c + 7..] == (body + Closer + rest)[|body| + 7..];
  }

  /** The regular expression matches a well-formed block at its start, with the
      parameter name and the body up to the nearest closer. */
  lemma MatchesBlock(t: string, sp: string, name: string, body: string, c: nat)
    requires sp != [] && forall i :: 0 <= i < |sp| ==> IsSpace(sp[i])
    requires name != [] && forall i :: 0 <= i < |name| ==> IsWordChar(name[i])
    requires !Contains(body, Closer)
    requires BlockPieces(t, sp, name, body, c)
    ensures MatchBlock(t) == Some(Block(name, body, c + 7))
  {
    var open := 5 + |sp| + |name| + 2;
    HeaderOfPieces(t, sp, name, body, c);
    assert OccursAt(t, Closer, c);
    NearestCloser(t, open, c);
    MatchFound(t, name, body, open, c);
  }

  /** Conversely, every match is a well-formed block: the opener, at least one
      space, a non-empty word, `}}`, a body without any closer, and the closer
      that ends the match. */
  lemma BlockOfMatch(t: string)
    requires MatchBlock(t).Some?
    ensures WellFormedBlock(t, MatchBlock(t).value)
  {
    var (name, open) := Header(t).value;
    HeaderParts(t);
    var c := FindFrom(t, Closer, open).value;
    BodyWithoutCloser(t, open, c);
    BlockOfParts(t, name, open, c);
    MatchFound(t, name, t[open..c], open, c);
  }

  /** `b` describes the start of `t` as a well-formed block: the opener, at least
      one space, the non-empty word `b.param`, `}}`, the body `b.body` without
      any closer, and a closer ending at `b.len` */
  predicate WellFormedBlock(t: string, b: Block)
  {
    var s := b.len - 7 - |b.body| - 2 - |b.param|;
    && 5 < s && b.len <= |t|
    && (forall i :: 5 <= i < s ==> IsSpace(t[i]))
    && b.param != [] && (forall i :: 0 <= i < |b.param| ==> IsWordChar(b.param[i]))
    && !Contains(b.body, Closer)
    && BlockPieces(t, t[5..s], b.param, b.body, b.len - 7)
  }

  /** A header's pieces, a body without a closer and a closer make up a block. */
  lemma BlockOfParts(t: string, name: string, open: nat, c: nat)
    requires 5 < open - 2 - |name| && open <= c && OccursAt(t, Closer, c)
    requires forall i :: 5 <= i < open - 2 - |name| ==> IsSpace(t[i])
    requires name != [] && forall i :: 0 <= i < |name| ==> IsWordChar(name[i])
    requires t[..5] == Opener && t[open - 2 - |name|..open - 2] == name && t[open - 2..open] == "}}"
    requires !Contains(t[open..c], Closer)
    ensures WellFormedBlock(t, Block(name, t[open..c], c + 7))
  {
  }

  /** The pieces a recognised header is made of */
  lemma HeaderParts(t: string)
    requires Header(t).Some?
    ensures var (name, open) := Header(t).value;
      var s := open - 2 - |name|;
      && 5 < s && open <= |t| && t[..5] == Opener
      && (forall i :: 5 <= i < s ==> IsSpace(t[i]))
      && name != [] && (forall i :: 0 <= i < |name| ==> IsWordChar(name[i]))
      && t[s..open - 2] == name && t[open - 2..open] == "}}"
  {
    var ws := Span(t[5..], Space);
    var w := Span(t[5 + ws..], Word);
    SpanInClass(t[5..], Space);
    SpanInClass(t[5 + ws..], Word);
    assert forall i :: 5 <= i < 5 + ws ==> t[i] == t[5..][i - 5];
  }

  /** The body up to the closer `find` returns holds no closer. */
  lemma BodyWithoutCloser(t: string, open: nat, c: nat)
    requires open <= |t| && FindFrom(t, Closer, open) == Some(c)
    ensures open <= c && !Contains(t[open..c], Closer)
  {
    FindFromFirst(t, Closer, open);
    if Contains(t[open..c], Closer) {
      var k :| 0 <= k <= c - open - 7 && OccursAt(t[open..c], Closer, k);
      assert t[open + k..open + k + 7] == t[open..c][k..k + 7];
      assert OccursAt(t, Closer, open + k);
      assert false;
    }
  }

  /** Every character Span counts is in the class, and the one after is not. */
  lemma {:induction false} SpanInClass(s: string, k: CharClass)
    ensures forall i :: 0 <= i < Span(s, k) ==> InClass(s[i], k)
    ensures Span(s, k) < |s| ==> !InClass(s[Span(s, k)], k)
  {
    if s != [] && InClass(s[0], k) {
      SpanInClass(s[1..], k);
      assert forall i :: 1 <= i < Span(s, k) ==> s[i] == s[1..][i - 1];
    }
  }

  /** A header followed by a closer is a match. */
  lemma MatchFound(t: string, name: string, body: string, open: nat, c: nat)
    requires Header(t) == Some((name, open))
    requires open <= c <= |t| && FindFrom(t, Closer, open) == Some(c) && t[open..c] == body
    ensures MatchBlock(t) == Some(Block(name, body, c + 7))
  {
  }

  /** The opener, the spaces, the word and `}}` of a block header are recognised. */
  lemma HeaderOfPieces(t: string, sp: string, name: string, body: string, c: nat)
    requires sp != [] && forall i :: 0 <= i < |sp| ==> IsSpace(sp[i])
    requires name != [] && forall i :: 0 <= i < |name| ==> IsWordChar(name[i])
    requires BlockPieces(t, sp, name, body, c)
    ensures Header(t) == Some((name, 5 + |sp| + |name| + 2))
  {
    var n := 5 + |sp| + |name|;
    assert t[5..][..|sp|] == t[5..5 + |sp|];
    assert t[5..][|sp|] == t[5 + |sp|..n][0];
    SpanOfPrefix(t[5..], sp, Space);
    assert t[5 + |sp|..][..|name|] == t[5 + |sp|..n];
    assert t[5 + |sp|..][|name|] == t[n..n + 2][0];
    SpanOfPrefix(t[5 + |sp|..], name, Word);
  }

  /** Span over a text that starts with `a`, all of whose characters are in
      class `k`, followed by a character that is not */
  lemma SpanOfPrefix(s: string, a: string, k: CharClass)
    requires |a| < |s| && s[..|a|] == a && !InClass(s[|a|], k)
    requires forall i :: 0 <= i < |a| ==> InClass(a[i], k)
    ensures Span(s, k) == |a|
  {
    assert forall i :: 0 <= i < |a| ==> s[i] == a[i];
    SpanPrefix(s, |a|, k);
  }

  /** Span stops at the first character outside the class. */
  lemma {:induction false} SpanPrefix(s: string, n: nat, k: CharClass)
    requires n < |s| && !InClass(s[n], k)
    requires forall i :: 0 <= i < n ==> InClass(s[i], k)
    ensures Span(s, k) == n
  {
    if n > 0 {
      SpanPrefix(s[1..], n - 1, k);
    }
  }

  /** The non-greedy body stops at the first closer after the header. */
  lemma NearestCloser(t: string, open: nat, c: nat)
    requires open <= c && OccursAt(t, Closer, c) && !Contains(t[open..c], Closer)
    ensures FindFrom(t, Closer, open) == Some(c)
  {
    forall j | open <= j < c
      ensures !OccursAt(t, Closer, j)
    {
      NoCloserBefore(t, open, c, j);
    }
    FindFromAt(t, Closer, open, c);
  }

  /** No closer starts between `open` and `c`: one that ended before `c` would
      be an occurrence in `t[open..c]`, and one that overlapped the closer at `c`
      is impossible, since `{{/if}}` does not overlap itself. */
  lemma NoCloserBefore(t: string, open: nat, c: nat, j: int)
    requires open <= c && OccursAt(t, Closer, c) && !Contains(t[open..c], Closer)
    requires open <= j < c
    ensures !OccursAt(t, Closer, j)
  {
    if OccursAt(t, Closer, j) {
      var body := t[open..c];
      var k := j - open;
      if j + 7 <= c {
        forall m | k <= m < k + 7
          ensures body[m] == t[open + m]
        {
        }
        assert body[k..k + 7] == t[j..j + 7];
        assert OccursAt(body, Closer, k);
      } else {
        CloserChars(t, j);
        CloserChars(t, c);
      }
      assert false;
    }
  }

  /** The seven characters of an occurrence of `{{/if}}` */
  lemma CloserChars(s: string, j: int)
    requires OccursAt(s, Closer, j)
    ensures s[j] == '{' && s[j + 1] == '{' && s[j + 2] == '/' && s[j + 3] == 'i'
    ensures s[j + 4] == 'f' && s[j + 5] == '}' && s[j + 6] == '}'
  {
    var q := s[j..j + 7];
    assert q == Closer;
    assert s[j] == q[0] && s[j + 1] == q[1] && s[j + 2] == q[2] && s[j + 3] == q[3];
    assert s[j + 4] == q[4] && s[j + 5] == q[5] && s[j + 6] == q[6];
  }

  // ---------------------------------------------------------------- render_snippet

  datatype RenderError =
    | MissingTemplate            // KeyError: 'template'
    | MissingRequired(param: string)  // "Required parameter '<param>' not provided"

  /** `kwargs.get(name, param.get("default", ""))` */
  function ParamValue(p: Param, kwargs: map<string, Value>): Value
  {
    if p.name in kwargs then kwargs[p.name]
    else if p.default.Some? then p.default.value
    else Str("")
  }

  /** A required parameter whose value is falsy */
  predicate MissesRequired(p: Param, kwargs: map<string, Value>)
  {
    p.required && !Truthy(ParamValue(p, kwargs))
  }

  /** Parameter `i` is the first that misses its required value */
  predicate FirstMissing(ps: seq<Param>, kwargs: map<string, Value>, i: int)
  {
    0 <= i < |ps| && MissesRequired(ps[i], kwargs)
    && forall j :: 0 <= j < i ==> !MissesRequired(ps[j], kwargs)
  }

  /** The placeholder `{name}` */
  function Placeholder(name: string): (r: string)
    ensures r != []
  {
    "{" + name + "}"
  }

  /** The template after replacing the placeholders of `ps`, one parameter after
      another in declaration order */
  function Substitute(t: string, ps: seq<Param>, kwargs: map<string, Value>): string
  {
    if ps == [] then t
    else
      var p := ps[|ps| - 1];
      ReplaceAll(Substitute(t, ps[..|ps| - 1], kwargs), Placeholder(p.name), ToStr(ParamValue(p, kwargs)))
  }

  /** Substituting one more parameter replaces that parameter's placeholder. */
  lemma SubstituteStep(t: string, ps: seq<Param>, i: nat, kwargs: map<string, Value>)
    requires i < |ps|
    ensures Substitute(t, ps[..i + 1], kwargs)
         == ReplaceAll(Substitute(t, ps[..i], kwargs), Placeholder(ps[i].name), ToStr(ParamValue(ps[i], kwargs)))
  {
    assert ps[..i + 1][..i] == ps[..i];
  }

  /** `render_snippet` on a loaded snippet */
  method RenderSnippet(s: Snippet, kwargs: map<string, Value>) returns (r: Result<string, RenderError>)
    ensures s.template.None? ==> r == Failure(MissingTemplate)
    ensures r.Failure? && r.error.MissingRequired? ==>
      exists i :: FirstMissing(ParamsOf(s), kwargs, i) && ParamsOf(s)[i].name == r.error.param
    ensures s.template.Some? && (exists i :: 0 <= i < |ParamsOf(s)| && MissesRequired(ParamsOf(s)[i], kwargs)) ==>
      r.Failure? && r.error.MissingRequired?
    ensures s.template.Some? && (forall i :: 0 <= i < |ParamsOf(s)| ==> !MissesRequired(ParamsOf(s)[i], kwargs)) ==>
      r == Success(HandleConditionals(Substitute(s.template.value, ParamsOf(s), kwargs), kwargs))
  {
    if s.template.None? {
      return Failure(MissingTemplate);
    }
    var template := s.template.value;
    var ps := ParamsOf(s);
    var i := 0;
    while i < |ps|
      invariant i <= |ps|
      invariant template == Substitute(s.template.value, ps[..i], kwargs)
      invariant forall j :: 0 <= j < i ==> !MissesRequired(ps[j], kwargs)
    {
      var p := ps[i];
      var value := ParamValue(p, kwargs);
      if p.required && !Truthy(value) {
        assert FirstMissing(ps, kwargs, i);
        return Failure(MissingRequired(p.name));
      }
      template := ReplaceAll(template, Placeholder(p.name), ToStr(value));
      SubstituteStep(s.template.value, ps, i, kwargs);
      i := i + 1;
    }
    assert ps[..i] == ps;
    template := HandleConditionals(template, kwargs);
    return Success(template);
  }

  /** A template with no declared parameters and no conditional block renders as itself. */
  lemma PlainTemplateUnchanged(t: string, kwargs: map<string, Value>)
    requires !Contains(t, Opener)
    ensures HandleConditionals(Substitute(t, [], kwargs), kwargs) == t
  {
    NoBlocksUnchanged(t, kwargs);
  }

  /** Substituting parameters whose placeholders do not occur leaves the template as it is. */
  lemma {:induction false} SubstituteAbsent(t: string, ps: seq<Param>, kwargs: map<string, Value>)
    requires forall i :: 0 <= i < |ps| ==> !Contains(t, Placeholder(ps[i].name))
    ensures Substitute(t, ps, kwargs) == t
  {
    if ps != [] {
      SubstituteAbsent(t, ps[..|ps| - 1], kwargs);
      var p := ps[|ps| - 1];
      ReplaceAbsent(t, Placeholder(p.name), ToStr(ParamValue(p, kwargs)));
    }
  }

  /** A placeholder at the start of the text is replaced by the value's string form. */
  lemma PlaceholderReplaced(p: Param, rest: string, kwargs: map<string, Value>)
    ensures Substitute(Placeholder(p.name) + rest, [p], kwargs)
         == ToStr(ParamValue(p, kwargs)) + ReplaceAll(rest, Placeholder(p.name), ToStr(ParamValue(p, kwargs)))
  {
    assert [p][..0] == [];
    ReplaceLeading(Placeholder(p.name), rest, ToStr(ParamValue(p, kwargs)));
  }
}
