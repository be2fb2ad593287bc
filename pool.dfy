/** The MCP client and its connection pool (mcp_client/client.py): the
    bookkeeping of `MCPConnectionPool` over its `available` stack and `in_use`
    set, and the client's `connected` flag. Whether the stdio transport to the
    server comes up is an input. Each pool method runs as one atomic step, as the
    pool's lock makes `get_client` and `return_client`. */
module McpPool {
  import opened Wrappers
  import opened Text
  import ToolLoop

  /** Why `connect_to_server` raised */
  datatype ConnectError =
    | NotAScript        // the `ValueError` for a path ending neither in .py nor in .js
    | TransportFailed   // starting the server or the session handshake raised

  /** The interpreter `connect_to_server` launches the server script with */
  function LaunchCommand(path: string): (r: Result<string, ConnectError>)
    ensures r == Success("python3") <==> EndsWith(path, ".py")
    ensures r == Success("node") <==> EndsWith(path, ".js")
    ensures r.Failure? <==> !EndsWith(path, ".py") && !EndsWith(path, ".js")
    ensures r.Failure? ==> r.error == NotAScript
  {
    if EndsWith(path, ".py") then Success("python3")
    else if EndsWith(path, ".js") then Success("node")
    else Failure(NotAScript)
  }

  /** A connection attempt succeeds when the path names a script and the transport comes up */
  predicate Connects(path: string, transportOk: bool)
  {
    LaunchCommand(path).Success? && transportOk
  }

  /** `MCPClient`: one session with the MCP server */
  class Client {
    var connected: bool

    constructor ()
      ensures !connected
    {
      connected := false;
    }

    /** `connect_to_server`: the command the server was launched with, or the
        exception; only a successful attempt sets `connected` */
    method Connect(path: string, transportOk: bool) returns (r: Result<string, ConnectError>)
      modifies this
      ensures r.Success? <==> Connects(path, transportOk)
      ensures r.Success? ==> r == LaunchCommand(path)
      ensures r.Failure? ==> r.error == (if LaunchCommand(path).Failure? then NotAScript else TransportFailed)
      ensures connected == (old(connected) || r.Success?)
    {
      var command := LaunchCommand(path);
      if command.Failure? {
        return command;
      }
      if !transportOk {
        return Failure(TransportFailed);
      }
      connected := true;
      r := command;
    }

    /** `cleanup`: close the session; the client is disconnected whatever happens */
    method Cleanup()
      modifies this
      ensures !connected
    {
      connected := false;
    }
  }

  /** The number of successful attempts among the first `n`, attempt `i` having
      transport outcome `transport(i)` */
  function Successes(path: string, transport: nat -> bool, n: nat): nat
  {
    if n == 0 then 0
    else Successes(path, transport, n - 1) + (if Connects(path, transport(n - 1)) then 1 else 0)
  }

  /** At most one connection per attempt; none at all for a path that is not a
      script; one per attempt exactly when every attempt's transport comes up. */
  lemma {:induction false} SuccessesBounds(path: string, transport: nat -> bool, n: nat)
    ensures Successes(path, transport, n) <= n
    ensures LaunchCommand(path).Failure? ==> Successes(path, transport, n) == 0
    ensures Successes(path, transport, n) == n <==> forall i :: 0 <= i < n ==> Connects(path, transport(i))
  {
    if n > 0 {
      SuccessesBounds(path, transport, n - 1);
    }
  }

  /** The text `process_resume_request` returns when no client is available */
  const NoConnections := "Error:" + " No available MCP connections. Please try again."
  const ProcessingFailed := "Error processing resume: "

  /** `range(pool_size)` makes no attempt for a size below one */
  function Attempts(poolSize: int): nat
  {
    if poolSize < 0 then 0 else poolSize
  }

  /** `MCPConnectionPool` */
  class Pool {
    const serverPath: string
    const poolSize: int
    var available: seq<Client>
    var inUse: set<Client>
    var initialized: bool
    var cleanupDone: bool

    /** Every client the pool holds */
    function Clients(): set<Client>
      reads this
    {
      (set c: Client | c in available) + inUse
    }

    /** The pool's invariant: `available` holds each client once and none that
        is in use, the pool never holds more clients than `pool_size`, and it
        holds none before `initialize_pool` */
    predicate Valid()
      reads this
    {
      && (forall i, j :: 0 <= i < j < |available| ==> available[i] != available[j])
      && (forall i :: 0 <= i < |available| ==> available[i] !in inUse)
      && |available| + |inUse| <= Attempts(poolSize)
      && (!initialized ==> available == [] && inUse == {})
    }

    /** `is_healthy` of the health endpoint */
    predicate Healthy()
      reads this
    {
      initialized && |available| > 0
    }

    constructor (serverPath: string, poolSize: int)
      ensures this.serverPath == serverPath && this.poolSize == poolSize
      ensures available == [] && inUse == {} && !initialized && !cleanupDone
      ensures Valid()
    {
      this.serverPath := serverPath;
      this.poolSize := poolSize;
      available := [];
      inUse := {};
      initialized := false;
      cleanupDone := false;
    }

    /** `initialize_pool`: once initialized, nothing; otherwise one attempt per
        slot, each success pushed in turn, and the pool is initialized even
        when every attempt failed */
    method InitializePool(transport: nat -> bool)
      requires Valid()
      modifies this
      ensures Valid()
      ensures initialized && inUse == old(inUse) && cleanupDone == old(cleanupDone)
      ensures old(initialized) ==> available == old(available)
      ensures !old(initialized) ==> |available| == Successes(serverPath, transport, Attempts(poolSize))
      ensures !old(initialized) ==> forall c :: c in available ==> fresh(c) && c.connected
    {
      if initialized {
        return;
      }
      var i: nat := 0;
      while i < poolSize
        invariant i <= Attempts(poolSize)
        invariant inUse == {} && !initialized && cleanupDone == old(cleanupDone)
        invariant |available| == Successes(serverPath, transport, i)
        invariant forall c :: c in available ==> fresh(c) && c.connected
        invariant forall k, l :: 0 <= k < l < |available| ==> available[k] != available[l]
      {
        var client := new Client();
        var r := client.Connect(serverPath, transport(i));
        if r.Success? {
          available := available + [client];
        }
        i := i + 1;
      }
      SuccessesBounds(serverPath, transport, Attempts(poolSize));
      initialized := true;
    }

    /** `get_client`: pop the most recently pushed client and mark it in use,
        or None when no client is available */
    method GetClient() returns (c: Option<Client>)
      requires Valid()
      modifies this
      ensures Valid()
      ensures initialized == old(initialized) && cleanupDone == old(cleanupDone)
      ensures old(available) == [] ==> c == None && available == old(available) && inUse == old(inUse)
      ensures old(available) != [] ==>
        && c == Some(old(available)[|old(available)| - 1])
        && available == old(available)[..|old(available)| - 1]
        && inUse == old(inUse) + {c.value}
    {
      if available == [] {
        return None;
      }
      var client := available[|available| - 1];
      available := available[..|available| - 1];
      inUse := inUse + {client};
      return Some(client);
    }

    /** `return_client`: a client not in use is ignored; otherwise it leaves
        `in_use` and is pushed back if it is still connected or the one
        reconnection attempt succeeds, and dropped if not */
    method ReturnClient(c: Client, transportOk: bool)
      requires Valid()
      modifies this, c
      ensures Valid()
      ensures initialized == old(initialized) && cleanupDone == old(cleanupDone)
      ensures c !in old(inUse) ==> available == old(available) && inUse == old(inUse) && c.connected == old(c.connected)
      ensures c in old(inUse) ==>
        && inUse == old(inUse) - {c}
        && available == old(available) + (if old(c.connected) || Connects(serverPath, transportOk) then [c] else [])
        && c.connected == (old(c.connected) || Connects(serverPath, transportOk))
    {
      if c in inUse {
        inUse := inUse - {c};
        if c.connected {
          available := available + [c];
        } else {
          var r := c.Connect(serverPath, transportOk);
          if r.Success? {
            available := available + [c];
          }
        }
      }
    }

    /** `cleanup_pool`: at most once, empty both containers and disconnect
        every client they held (in any order: each is only marked
        disconnected); `initialized` stays as it was */
    method CleanupPool()
      requires Valid()
      modifies this, Clients()
      ensures Valid()
      ensures cleanupDone && initialized == old(initialized)
      ensures old(cleanupDone) ==>
        && available == old(available) && inUse == old(inUse)
        && forall c :: c in old(Clients()) ==> c.connected == old(c.connected)
      ensures !old(cleanupDone) ==>
        && available == [] && inUse == {}
        && forall c :: c in old(Clients()) ==> !c.connected
    {
      if cleanupDone {
        return;
      }
      cleanupDone := true;
      var all := Clients();
      available := [];
      inUse := {};
      var pending := all;
      while pending != {}
        invariant available == [] && inUse == {} && cleanupDone && initialized == old(initialized)
        invariant pending <= all
        invariant forall c :: c in all - pending ==> !c.connected
        decreases |pending|
      {
        var c :| c in pending;
        c.connected := false;
        pending := pending - {c};
      }
    }

    /** A reconnection that does reconnect: clean up even after an earlier
        cleanup, then initialize afresh. The pool ends up holding exactly the
        clients that connected, all new, and is live again. A real fix must
        also replace the event loop `cleanup_pool` closes, which is not part of
        this model. */
    method Restart(transport: nat -> bool)
      requires Valid()
      modifies this, Clients()
      ensures Valid()
      ensures initialized && !cleanupDone && inUse == {}
      ensures |available| == Successes(serverPath, transport, Attempts(poolSize))
      ensures forall c :: c in available ==> fresh(c) && c.connected
      ensures forall c :: c in old(Clients()) ==> !c.connected
      ensures Healthy() <==> Successes(serverPath, transport, Attempts(poolSize)) > 0
    {
      cleanupDone := false;
      CleanupPool();
      cleanupDone, initialized := false, false;
      InitializePool(transport);
    }

    /** `process_resume_request`: without an available client, the error text
        and no other effect; otherwise the query's URL, or the error text with
        the exception's description, and the client is always handed back */
    method ProcessResumeRequest(resumeData: string, jobDescription: string,
                                prompt: (string, string) -> string, listed: bool,
                                model: ToolLoop.Model, tools: ToolLoop.Tools, parse: ToolLoop.UrlParser,
                                describe: ToolLoop.QueryError -> string, reconnectOk: bool)
      returns (result: string)
      requires Valid()
      modifies this, available
      ensures Valid()
      ensures initialized == old(initialized) && cleanupDone == old(cleanupDone)
      ensures old(available) == [] ==> result == NoConnections && available == old(available) && inUse == old(inUse)
      ensures old(available) != [] ==>
        var c := old(available)[|old(available)| - 1];
        && result == Answer(ToolLoop.QueryOutcome(prompt(resumeData, jobDescription), listed, model, tools, parse).0, describe)
        && inUse == old(inUse)
        && available == old(available)[..|old(available)| - 1]
                        + (if old(c.connected) || Connects(serverPath, reconnectOk) then [c] else [])
        && c.connected == (old(c.connected) || Connects(serverPath, reconnectOk))
        && forall d :: d in old(available) && d != c ==> d.connected == old(d.connected)
    {
      var client := GetClient();
      if client.None? {
        return NoConnections;
      }
      var c := client.value;
      var r, _, _ := ToolLoop.ProcessQuery(prompt(resumeData, jobDescription), listed, model, tools, parse);
      result := Answer(r, describe);
      ReturnClient(c, reconnectOk);
    }
  }

  /** What `process_resume_request` returns for the query's outcome */
  function Answer(r: Result<string, ToolLoop.QueryError>, describe: ToolLoop.QueryError -> string): (s: string)
    ensures r.Success? ==> s == r.value
    ensures r.Failure? ==> StartsWith(s, ProcessingFailed) && s[|ProcessingFailed|..] == describe(r.error)
  {
    match r
    case Success(url) => url
    case Failure(e) => ProcessingFailed + describe(e)
  }

  /** A failed query's answer is never mistaken for the no-connection error:
      it does not start with "Error:". */
  lemma FailureNotErrorPrefixed(e: ToolLoop.QueryError, describe: ToolLoop.QueryError -> string)
    ensures !StartsWith(Answer(Failure(e), describe), "Error:")
  {
    var s := Answer(Failure(e), describe);
    assert s[5] == ' ';
  }
}
