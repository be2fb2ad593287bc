# Bespoke Tailor backend, modelled in Dafny

The backend takes a resume and a job description over HTTP, rate-limits the
caller, borrows an MCP client from a small connection pool and lets a
language model drive the tools of a LaTeX server until it returns the URL of
a compiled PDF. This project models the decision logic of that path, with
every external effect turned into an input:

- `pool.dfy` (`McpPool`) is the client and its connection pool
  (`mcp_client/client.py`). `Client` and `Pool` are classes whose methods update
  `connected`, the `available` stack, the `in_use` set and the
  `initialized`/`_cleanup_done` flags in place. Whether a connection attempt comes
  up is an input.
- `tool_loop.dfy` (`ToolLoop`) is `process_query`: at most ten model calls,
  tool calls executed in order, and URL capture from tool outputs. The model, the
  tools and the JSON decoding are function-valued inputs. The loop is a `while`
  method proved equal to the recursive function `Converse`, and the lemmas state
  what `Converse` guarantees.
- `app.dfy` (`App`) is the HTTP layer (`app.py`):
  - the sliding-window rate limiter, as a class over the `request_counts` map;
  - the order of the checks in `tailor_resume`, and the blanket `except`;
  - the health predicate and the reconnect endpoint.
- `engine.dfy` (`LatexEngine`) is the LaTeX engine
  (`latex-mcp/plugins/latex/engine.py`):
  - job-name sanitising and source validation;
  - the engine whitelist and the cache lookup;
  - the multi-pass compile loop and the log it writes.
- `snippets.dfy` (`Snippets`) is the snippet system
  (`latex-mcp/plugins/latex/snippets.py`) over already-parsed snippet files. It
  covers placeholder substitution in declared order, the required-parameter check
  and the non-greedy `{{#if p}}…{{/if}}` rewriting.
- `plugin.dfy` (`LatexPlugin`) is the plugin's tools
  (`latex-mcp/plugins/latex/__init__.py`): the description scan of
  `list_templates`, and `compile_latex`, which prunes old files before compiling.
- `text.dfy` (`Text`) gives Python's string operations (`startswith`, `in`,
  `find`, `strip`, `replace`, `str(int)`), restricted to ASCII character classes.
  `wrappers.dfy` gives `Option` and `Result`.

Exceptions are modelled as the `Failure` case of a `Result`. Clocks are `real`
parameters.

## Model

| member | source | states |
|---|---|---|
| McpPool.LaunchCommand | mcp_client/client.py:29-34 | The server runs under `python3` exactly for a `.py` path and under `node` exactly for a `.js` path. Any other path is the "must be a .py or .js file" error. |
| McpPool.Client.Connect | mcp_client/client.py:23-46 | Succeeds exactly when the path names a script and the transport comes up. The error says which check failed. Only a success sets `connected`. |
| McpPool.Client.Cleanup | mcp_client/client.py:121-130 | The client is disconnected whatever happens. |
| McpPool.SuccessesBounds | mcp_client/client.py:161-168 | There is at most one connection per attempt, and none for a path that is not a script. Every attempt connects exactly when every transport comes up. |
| McpPool.Pool.constructor | mcp_client/client.py:133-142 | A new pool is empty, uninitialized and not cleaned up. |
| McpPool.Pool.InitializePool | mcp_client/client.py:155-172 | Once initialized, nothing changes. Otherwise there is one attempt per slot, and exactly the successes are added, all new and connected. The pool is initialized even when every attempt fails. The pool invariant (no duplicates, `available` and `in_use` disjoint, at most `pool_size` clients) is kept. |
| McpPool.Pool.GetClient | mcp_client/client.py:174-181 | An empty pool gives None and nothing changes. Otherwise the last client of `available` is popped, added to `in_use` and returned. The invariant is kept. |
| McpPool.Pool.ReturnClient | mcp_client/client.py:183-196 | A client not in use is ignored. Otherwise it leaves `in_use`. It is appended to `available` exactly when it is connected or its one reconnection succeeds, and dropped otherwise. |
| McpPool.Pool.CleanupPool | mcp_client/client.py:233-254 | Acts at most once. Both containers are emptied and every client they held is disconnected. `initialized` is left as it was. |
| McpPool.Pool.Restart | app.py:96-102 | The reconnection as evidently meant. Every earlier client is disconnected, and the pool holds exactly the successful new connections. It is healthy exactly when one attempt connected. |
| McpPool.Pool.ProcessResumeRequest | mcp_client/client.py:198-231 | An empty pool gives the "Error: No available MCP connections" text and nothing changes. Otherwise the result is the query's URL or "Error processing resume: " with the error, and the borrowed client is always handed back. It is pushed back and connected exactly when it was connected or its reconnection succeeded. No other pooled client's `connected` changes. |
| McpPool.Answer | mcp_client/client.py:225-229 | The URL of a successful query is returned as is. A failure becomes the processing-error prefix followed by the exception's text. |
| McpPool.FailureNotErrorPrefixed | mcp_client/client.py:229 | A failed query's answer never starts with "Error:". |
| ToolLoop.NoToolUses | mcp_client/client.py:87-91 | A reply asks for no tool exactly when none of its blocks is a tool use. |
| ToolLoop.LastUrlText | mcp_client/client.py:109-111 | The index of the last tool text that contains "url". No later text contains it, and None means no text does. |
| ToolLoop.UrlAfterIsLast | mcp_client/client.py:109-111 | The captured URL is the decoded last text containing "url", or the starting URL when there is none. Every such text decoded. |
| ToolLoop.UrlAfterConcat | mcp_client/client.py:65-111 | Scanning two rounds' outputs in turn is the same as scanning them together, so the URL persists across rounds. |
| ToolLoop.RunCallsResults | mcp_client/client.py:95-107 | A completed round has one result per call, in call order, tagged with the call's id and holding the text of that call's output. |
| ToolLoop.RunCallsUrl | mcp_client/client.py:109-111 | The URL after a round is what the scan of its results gives. |
| ToolLoop.RunCallsFailureStands | mcp_client/client.py:100-111 | Once a tool call or a URL decoding raises, the later calls do not run and the failure stands. |
| ToolLoop.RunCallsRaised | mcp_client/client.py:95-111 | A round of tool calls fails exactly when one of its calls raises. A call raises when `call_tool` raises, or when its text contains "url" and `json.loads(...)["url"]` raises. The exception is that of the first such call. |
| ToolLoop.ExecuteCalls | mcp_client/client.py:94-111 | The inner `for` loop computes the round's results and URL, or the first error. |
| ToolLoop.RunRound | mcp_client/client.py:70-118 | One pass of the loop body computes `Round`. |
| ToolLoop.ConverseLoop | mcp_client/client.py:65-119 | The `while` loop computes `Converse` from the query with URL `''`. |
| ToolLoop.ProcessQuery | mcp_client/client.py:48-119 | If listing the tools fails, the query fails before any model call. Otherwise the result is the loop over the conversation holding only the query. |
| ToolLoop.RoundStops | mcp_client/client.py:73-111 | A model that raises ends the query with that exception and adds nothing. A reply with no tool use ends the loop with the URL held so far, after appending the reply. A round that ends the loop ends successfully only on such a reply. Otherwise it fails with the model's exception or the round's first raising call. |
| ToolLoop.RoundContinues | mcp_client/client.py:81-118 | A round that goes on appends the assistant's reply with its tool uses, then one user message with exactly one result per call. Each result carries its call's id and the text of that call's tool output. The round holds the URL scanned from those results. |
| ToolLoop.ConverseBounded | mcp_client/client.py:66-70 | The loop calls the model at least once and at most ten times. |
| ToolLoop.ConverseExtends | mcp_client/client.py:81-118 | The loop only appends to the conversation, at most two messages per model call. |
| ToolLoop.ConverseTranscript | mcp_client/client.py:81-118 | What the loop appends is a sequence of answered rounds. Each reply is the model's answer to the conversation before it. Each result message holds, per call, the text of that call's tool output. It may end with one last reply. |
| ToolLoop.ConverseStops | mcp_client/client.py:87-91 | A successful loop that ends before the bound ends on a model reply with no tool use. |
| ToolLoop.ConverseUrl | mcp_client/client.py:109-119 | A successful loop returns the URL that the scan of every tool result it added gives. |
| ToolLoop.ProcessQuerySpec | mcp_client/client.py:48-119 | There are one to ten model calls, and the conversation is the query followed by answered rounds, each result holding its call's tool output. A run that ends early ends on a reply with no tool use. The URL is the decoded last tool output containing "url", or `''` when none does. A failure carries one of two exceptions. Either the model raised on the final conversation, or it is the exception of the first raising call in the final reply. |
| ToolLoop.ConverseFailure | mcp_client/client.py:69-118 | The loop fails only where the model raises on the final conversation, or where a call in the final reply raises. The exception is that of the first such call. |
| ToolLoop.QuerySucceeds | mcp_client/client.py:48-119 | When the tools are listed and no model call, tool call or decoding of a text mentioning "url" ever raises, `process_query` returns a URL. |
| App.Recent | app.py:35-36 | A timestamp is in the kept list exactly when it is in the old list and less than sixty seconds old. The list never grows. |
| App.RecentCounts | app.py:35-36 | Every timestamp less than sixty seconds old is kept as often as it occurs, duplicates included, and no other is kept. |
| App.RecentInOrder | app.py:35-36 | Pruning keeps the surviving timestamps in their original order. |
| App.AdmitSpec | app.py:31-44 | A request is admitted exactly when fewer than ten timestamps survive pruning. Only an admitted request is appended, at the end. Every kept timestamp is inside the window, and one exactly sixty seconds old is gone. The order is kept, and a list of at most ten stays at most ten. |
| App.RateLimiter.constructor | app.py:27 | The map of request timestamps starts empty. |
| App.RateLimiter.CheckRateLimit | app.py:31-44 | The address's list becomes the pruned list, with the request appended when admitted. No other address's list changes. No list grows past ten. |
| App.TryBody | app.py:53-67 | Inside the `try`, checks run in this order: the rate limit gives 429, a missing field gives 400, a result starting with "Error:" gives 503. Otherwise the result is returned. |
| App.Respond | app.py:52-70 | The blanket `except` turns each of the 429, 400 and 503 errors into a 500 carrying that exception's text. The reply is a success exactly when all three checks pass. |
| App.PoolAnswers | app.py:62-67 | A query that raised is served as a success, since its text does not start with "Error:". An empty pool gives an error response. |
| App.TailorResume | app.py:50-70 | The rate limiter is always consulted first. The pool is used only for an admitted request with both fields, and the reply is as `Respond` gives. Otherwise the pool's contents and its clients' flags are untouched. A served request against an empty pool leaves the pool's contents as they were. Otherwise it hands the borrowed client back as `process_resume_request` does. `initialized` and `cleanup_done` never change. |
| App.Serve | app.py:58-70 | After the rate decision, the pool is used only for an admitted request with both fields. An unused pool keeps its contents and its clients' flags. A served request against an empty pool leaves the pool's contents as they were. Otherwise it hands the borrowed client back as `process_resume_request` does. `initialized` and `cleanup_done` never change. |
| App.HealthCheck | app.py:72-94 | The pool is healthy exactly when it is initialized and has an available client, with status 200 or else 503. The report gives the pool's counts and size. |
| App.ForceReconnect | app.py:96-104 | The reply reports success. After a pool that was initialized and not yet cleaned up, the pool ends empty and unhealthy. |
| App.Reconnect | app.py:96-102 | The reconnect endpoint as evidently meant. Earlier clients are disconnected, and the pool holds the successful new connections. It is healthy exactly when one attempt connected. |
| LatexEngine.KeepNameChars | latex-mcp/plugins/latex/engine.py:30 | Only alphanumeric characters, `-` and `_` are kept, and the result is no longer than the input. |
| LatexEngine.SanitizeName | latex-mcp/plugins/latex/engine.py:29-30 | The job name is never empty and holds only name characters. |
| LatexEngine.KeepConcat | latex-mcp/plugins/latex/engine.py:30 | The filter distributes over concatenation, so kept characters stay in order. |
| LatexEngine.KeepCounts | latex-mcp/plugins/latex/engine.py:30 | Each name character is kept as often as it occurs, and no other character is kept. |
| LatexEngine.KeepAllNameChars | latex-mcp/plugins/latex/engine.py:30 | A string of name characters passes unchanged. |
| LatexEngine.KeepNone | latex-mcp/plugins/latex/engine.py:30 | A string without name characters filters to nothing. |
| LatexEngine.SanitizeNameDefault | latex-mcp/plugins/latex/engine.py:30 | The name is "doc" exactly when no name character remains, or when the kept characters spell "doc". |
| LatexEngine.SanitizeNameIdempotent | latex-mcp/plugins/latex/engine.py:29-30 | Sanitizing twice is sanitizing once. |
| LatexEngine.SearchDangerous | latex-mcp/plugins/latex/engine.py:22-33 | The search from a position returns a position where a blocked alternative matches, with no match between the start and it. None means no position from the start on matches. |
| LatexEngine.SearchFindsDangerous | latex-mcp/plugins/latex/engine.py:33 | The search finds a match exactly when some blocked literal occurs in the source. |
| LatexEngine.ImmediateWriteSubsumed | latex-mcp/plugins/latex/engine.py:18-19 | Every `\immediate\write18` contains a `\write18`. |
| LatexEngine.ValidateSource | latex-mcp/plugins/latex/engine.py:32-37 | A blocked literal is reported exactly when one occurs, whatever else holds. A source passes exactly when it holds no blocked literal and contains `\documentclass`, `\begin{document}` and `\end{document}`. Each missing-marker error is reported exactly when no blocked literal occurs, the earlier markers are present and that marker is absent. |
| LatexEngine.PassLimit | latex-mcp/plugins/latex/engine.py:87 | `max(1, passes)`: at least one and at least `passes`, and equal to one of the two. |
| LatexEngine.CapturesAt | latex-mcp/plugins/latex/engine.py:88-90 | When every run finished, `outs` holds two entries per run, in run order: its stdout, then its stderr. |
| LatexEngine.SectionsSkipEmpty | latex-mcp/plugins/latex/engine.py:96-98 | A log of only empty outputs has no sections. |
| LatexEngine.SectionsConcat | latex-mcp/plugins/latex/engine.py:96-98 | The sections of two runs of outputs are those of the first, then those of the second. |
| LatexEngine.SectionsDropEmpty | latex-mcp/plugins/latex/engine.py:96-98 | An empty output anywhere among the outputs leaves the log as it is. |
| LatexEngine.FindCached | latex-mcp/plugins/latex/engine.py:63 | A file found matches `*_{key}.pdf`. |
| LatexEngine.FindCachedFirst | latex-mcp/plugins/latex/engine.py:63 | The file found is the first match in the listing. Nothing is found only when nothing matches. |
| LatexEngine.RunPasses | latex-mcp/plugins/latex/engine.py:86-92 | The engine runs between one time and the limit. Every run but the last finished with code 0, and a loop that stopped early stopped on a nonzero code or a run that raised. Both streams of every finished run are captured, in order. The exception of a last run that raised is returned. |
| LatexEngine.AssembleLog | latex-mcp/plugins/latex/engine.py:95-98 | The log is the engine and job header, then one labelled section per non-empty output, in run order. |
| LatexEngine.CompileFresh | latex-mcp/plugins/latex/engine.py:75-111 | A fresh compile has the pass bounds above. A run that raised passes its exception on and no log is written. Otherwise the log is the header and sections above. Without a PDF the result is the compilation error with the log URL. With one, the URLs and file name follow from the job name, marked not cached. |
| LatexEngine.CompileAllowed | latex-mcp/plugins/latex/engine.py:61-111 | When caching is on, the first cached PDF for the key is served and nothing is compiled. Otherwise a fresh compile runs under `sanitize(filename or "doc") + "_" + key`, with the outcomes of `CompileFresh`. |
| LatexEngine.CompileValidated | latex-mcp/plugins/latex/engine.py:58-111 | An engine outside the whitelist is refused before anything else happens. Otherwise behaviour is as `CompileAllowed`, with key `hash(source + engine)`. |
| LatexEngine.CompileLatexSource | latex-mcp/plugins/latex/engine.py:50-111 | Validation comes first, then the engine check, then the cache, then compilation. A cached result names a listed file and compiles nothing. The engine runs at most `max(1, passes)` times and stops at the first failure. |
| LatexPlugin.AfterFirstColon | latex-mcp/plugins/latex/__init__.py:39 | `split(":", 1)[1]` exists exactly when the line has a colon. |
| LatexPlugin.Head | latex-mcp/plugins/latex/__init__.py:37 | `lines[:10]` is the first ten lines, or all of them when there are fewer. |
| LatexPlugin.FirstWhereFirst | latex-mcp/plugins/latex/__init__.py:37-39 | The scan stops at the first matching line. It finds nothing only when no line matches. |
| LatexPlugin.FirstWhereAt | latex-mcp/plugins/latex/__init__.py:37-39 | A matching line with no match before it is the one found. |
| LatexPlugin.DescriptionLineHasColon | latex-mcp/plugins/latex/__init__.py:38-39 | A description line always has a colon. Its first colon ends the tag. |
| LatexPlugin.OnlyFirstTenLines | latex-mcp/plugins/latex/__init__.py:37 | Lines after the tenth never change the description. |
| LatexPlugin.DescribeChoosesFirst | latex-mcp/plugins/latex/__init__.py:37-39 | The first description line among the first ten wins. The description is its text after the tag, stripped. |
| LatexPlugin.DescribeDefault | latex-mcp/plugins/latex/__init__.py:36 | Without a description line among the first ten, the description is "No description". |
| LatexPlugin.ScanDescription | latex-mcp/plugins/latex/__init__.py:36-39 | The loop with its `break` computes the description defined by `Describe`. |
| LatexPlugin.ListTemplates | latex-mcp/plugins/latex/__init__.py:31-41 | There is one entry per template file, in order, with the file's stem, its full name and its description. |
| LatexPlugin.Prune | latex-mcp/plugins/latex/engine.py:39-47 | Exactly the files of the right extension older than the cutoff are removed. |
| LatexPlugin.CompileLatex | latex-mcp/plugins/latex/__init__.py:19-28 | Old files are pruned before compiling, and the compile sees the pruned listing. A validation error passes through. A cached result is served exactly when the pruned listing holds a match. It is never a file old enough to be pruned. |
| LatexPlugin.NamedKept | latex-mcp/plugins/latex/__init__.py:27-28 | A name listed after the cleanup belongs to a file that was there and survived it. |
| Snippets.GetSnippetInfo | latex-mcp/plugins/latex/snippets.py:35-43 | Fails exactly when `name`, `description` or `template` is missing. Each key error is raised exactly when its key is the first missing one in that order. `parameters` defaults to `[]`. |
| Snippets.ListedExactly | latex-mcp/plugins/latex/snippets.py:20-33 | A summary is listed exactly when some file parsed and has both a name and a description. The summary holds that file's name, description and parameter count. |
| Snippets.ListedLength | latex-mcp/plugins/latex/snippets.py:23-32 | There is at most one entry per file, and one for every file when none is skipped. |
| Snippets.ListAvailableSnippets | latex-mcp/plugins/latex/snippets.py:20-33 | The loop computes the listing of `Listed`. |
| Snippets.MatchesBlock | latex-mcp/plugins/latex/snippets.py:70 | A well-formed block matches, with its parameter name and the body up to the nearest `{{/if}}`. |
| Snippets.BlockOfMatch | latex-mcp/plugins/latex/snippets.py:70 | Conversely, every match is a well-formed block: `{{#if`, at least one space, a non-empty word, `}}`, a body holding no `{{/if}}`, and the `{{/if}}` that ends the match. |
| Snippets.NearestCloser | latex-mcp/plugins/latex/snippets.py:70 | The non-greedy body ends at the first closer after the header. |
| Snippets.NoBlocksUnchanged | latex-mcp/plugins/latex/snippets.py:67-80 | A template without `{{#if` is unchanged. |
| Snippets.UnclosedUnchanged | latex-mcp/plugins/latex/snippets.py:67-80 | A template without any `{{/if}}` is unchanged. |
| Snippets.BlockRendered | latex-mcp/plugins/latex/snippets.py:70-80 | A block becomes its body when the parameter is truthy among the keyword arguments, and vanishes otherwise. A missing parameter counts as false whatever its default. Rewriting continues after the block. |
| Snippets.RenderSnippet | latex-mcp/plugins/latex/snippets.py:45-65 | Without a template, the result is the template key error. Any required parameter with a falsy value is an error, and the one named is the first such in declared order. Otherwise the result is the substituted template with its conditional blocks rewritten. |
| Snippets.PlainTemplateUnchanged | latex-mcp/plugins/latex/snippets.py:45-65 | With no declared parameters and no conditional block, the template renders as itself. |
| Snippets.SubstituteAbsent | latex-mcp/plugins/latex/snippets.py:60 | Parameters whose placeholders do not occur leave the template unchanged. |
| Text.FindFromFirst | latex-mcp/plugins/latex/snippets.py:70 | The search finds the first occurrence. It finds none only when there is none. |
| Text.StripIsTrimmedSlice | latex-mcp/plugins/latex/__init__.py:38-39 | `strip()` removes whitespace only, at both ends only, and leaves no whitespace at either end. |
| Text.LStripSpaces | latex-mcp/plugins/latex/__init__.py:38 | `lstrip()` removes only whitespace. |
| Text.ReplaceAbsent | latex-mcp/plugins/latex/snippets.py:60 | Replacing a pattern that does not occur changes nothing. |
| Text.ReplaceSame | latex-mcp/plugins/latex/snippets.py:60 | Replacing a pattern by itself changes nothing. |
| Text.ReplaceFirst | latex-mcp/plugins/latex/snippets.py:60 | Given an occurrence of the pattern with none before it, the text before it is kept and the replacement takes its place. Replacing then goes on after it, so occurrences are replaced left to right without overlap. |
| Text.ReplaceAtFind | latex-mcp/plugins/latex/snippets.py:60 | `replace` in terms of `find`: without an occurrence the text is unchanged. Otherwise the first occurrence `find` returns is replaced, and the rest is replaced in turn. |
| Text.NatToString | app.py:70 | Gives decimal digits with no leading zero, and "0" exactly for zero. |
| Text.NatToStringValue | app.py:70 | The digits read back give the number. |
| Text.IntToString | latex-mcp/plugins/latex/snippets.py:60 | `str(n)` starts with "-" exactly for a negative number. |
| Text.IntToStringValue | latex-mcp/plugins/latex/snippets.py:60 | The sign and the digits read back give the number. |

## Left out

- The Anthropic API call, the MCP stdio transport, `ClientSession` and `AsyncExitStack` are left out. They are inputs: the model's reply (or a raise), each tool's output (or a raise), and whether a connection comes up.
- ToolLoop.Tools: a tool's output (or its raise) is a fixed function of the tool's name and input. Within one query, identical calls therefore get identical outputs. The source's tools keep state, so this is not always so. A repeated `compile_latex` call is answered from the cache with `"cached": True` (latex-mcp/plugins/latex/engine.py:70) where the first call said `"cached": False` (latex-mcp/plugins/latex/engine.py:108). A tool may also raise once and succeed on a later call. The model does not represent such runs. None of its proved properties depends on this restriction.
- The prompt text of `process_resume_request` is left out. It is the input `prompt(resume, job)`.
- `_run_async`, the event loop, task cancellation in `cleanup_pool`, the lock, the startup thread and `atexit` are left out. Each pool method is one atomic step.
- Filesystem, subprocess and clock work are inputs: the directory listing, each engine run (its return code and streams, or the exception it raised), whether the PDF exists afterwards, the files' modification times, and `now`. Writing the `.tex` file is not modelled. The log text is returned as a value, and is None when a run raised before it was written.
- `_hash` (a SHA-256 prefix) is an opaque input function.
- `json.loads(text)["url"]` is an opaque partial function. A `"url"` value that is not a string is not modelled.
- `load_snippet` and `get_template` only read files, and are not part of this model. Snippet files are given already parsed, and one whose JSON does not parse is None.
- A snippet whose `parameters` is not a list, or a parameter without `name`, is not modelled. `required` is a boolean.
- Keyword-argument and default values are strings, integers, booleans or None. Floats, lists and dicts, with their own `str()` and truthiness, are not modelled.
- A snippet file whose JSON is valid but not an object makes `list_available_snippets` raise a `TypeError`, which it does not catch. The model only has parsed objects and unparsable files, so this case is not modelled.
- The `get_snippet_info` and `render_snippet` tools in the plugin call themselves, not the functions of `snippets.py`. They are not modelled as delegating.
- `list_snippets` is a pass-through to `list_available_snippets` and has no member of its own.
- Python's Unicode-wide `isalnum`, `\w`, `\s` and `strip` are restricted to ASCII.
- `str(e)` of a query's exception is the input `describe`.
- A tool output's content items are given as their texts. A first item with no `text` attribute, such as an image, is not modelled.
- `str(result)` of a tool output with no content is the input `repr`.
- Timestamps are reals, not floats.
- `McpPool.Pool.CleanupPool`: disconnects clients in an unspecified order. The source iterates over `available` and then `in_use`, but only the resulting flags are observable.
- The HTTP framework, routing, CORS and the server entry points are left out.

## Findings

| source | as written | input that shows it | evidently intended | confidence | as-written member | corrected member |
|---|---|---|---|---|---|---|
| app.py:100-101 | `force_reconnect` calls `cleanup_pool()` then `initialize_pool()`, but `cleanup_pool` never resets `initialized`, so `initialize_pool` returns at once | A pool initialized at startup and not yet cleaned up. After `POST /health/reconnect` the pool holds no client and `health_check` reports unhealthy, yet the reply says "MCP pool reconnected successfully". A second call changes nothing, since `_cleanup_done` is set. | The old clients are dropped and the pool is filled again with fresh connections. `cleanup_pool` also closes `_event_loop` without clearing it (mcp_client/client.py:257-266), and `_run_async` (mcp_client/client.py:146-153) reuses a closed loop and raises "Event loop is closed". So the fix must also replace the loop. The loop is not part of this model. | not executed | App.ForceReconnect | App.Reconnect |
