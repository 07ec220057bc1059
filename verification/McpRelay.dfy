/** The relay's `tools/call` retry loop, and the agent's tool catalog. */
module McpRelay {
  import opened Options

  // ---- What a thrown fetch error proves ----

  /** An error and its chain of causes: an Error may carry a code, anything else ends the walk. */
  datatype Cause = NoCause | Error(code: Option<string>, cause: Cause) | Other

  predicate PreSendCode(code: string) {
    code in {"ENOTFOUND", "EAI_AGAIN", "ECONNREFUSED", "UND_ERR_CONNECT_TIMEOUT"}
  }

  predicate SomePreSend(codes: seq<string>) { exists i :: 0 <= i < |codes| && PreSendCode(codes[i]) }

  lemma SomePreSendSnoc(codes: seq<string>, code: string)
    ensures SomePreSend(codes + [code]) <==> SomePreSend(codes) || PreSendCode(code)
  {
    assert (codes + [code])[|codes|] == code;
    assert forall i :: 0 <= i < |codes| ==> (codes + [code])[i] == codes[i];
  }

  const MAX_DEPTH := 5

  /** The d-th cause down the chain. */
  function Down(e: Cause, d: nat): Cause {
    if d == 0 then e else if e.Error? then Down(e.cause, d - 1) else NoCause
  }

  /** One of the first five links is an Error whose code proves the request was never sent. */
  ghost predicate ProvesUnsent(e: Cause) { UnsentAbove(e, MAX_DEPTH) }

  ghost predicate UnsentAbove(e: Cause, depth: nat) {
    exists d: nat :: d < depth && HasPreSendCode(Down(e, d))
  }

  predicate HasPreSendCode(e: Cause) { e.Error? && e.code.Some? && PreSendCode(e.code.value) }

  /** Spelled out: within five links there is a name that did not resolve, a refused connection or a connect timeout. */
  lemma ProvesUnsentIff(e: Cause)
    ensures ProvesUnsent(e) <==> exists d: nat :: d < 5 && NeverSent(Down(e, d))
  {
    if ProvesUnsent(e) {
      var d: nat :| d < MAX_DEPTH && HasPreSendCode(Down(e, d));
      assert NeverSent(Down(e, d));
    }
    if d: nat :| d < 5 && NeverSent(Down(e, d)) { assert HasPreSendCode(Down(e, d)); }
  }

  predicate NeverSent(e: Cause) {
    e.Error? && (|| e.code == Some("ENOTFOUND") || e.code == Some("EAI_AGAIN")
                 || e.code == Some("ECONNREFUSED") || e.code == Some("UND_ERR_CONNECT_TIMEOUT"))
  }

  lemma {:induction false} DownOne(e: Cause, d: nat)
    ensures Down(e, d + 1) == if Down(e, d).Error? then Down(e, d).cause else NoCause
    decreases d
  {
    if d > 0 && e.Error? { DownOne(e.cause, d - 1); }
  }

  /** describeFetchError's walk over the codes. */
  method IsPreSendFailure(err: Cause) returns (preSend: bool)
    ensures preSend <==> ProvesUnsent(err)
  {
    var codes: seq<string> := [];
    var cur := err;
    var depth := 0;
    while depth < MAX_DEPTH && cur != NoCause
      invariant depth <= MAX_DEPTH
      invariant cur == Down(err, depth)
      invariant SomePreSend(codes) <==> UnsentAbove(err, depth)
      decreases MAX_DEPTH - depth
    {
      DownOne(err, depth);
      if cur.Error? {
        if cur.code.Some? {
          SomePreSendSnoc(codes, cur.code.value);
          codes := codes + [cur.code.value];
        }
        cur := cur.cause;
        depth := depth + 1;
      } else {
        break;
      }
    }
    if depth < MAX_DEPTH { NothingBelow(err, depth); }
    assert UnsentAbove(err, MAX_DEPTH) ==> UnsentAbove(err, depth) by {
      if d: nat :| d < MAX_DEPTH && HasPreSendCode(Down(err, d)) { assert d < depth; }
    }
    preSend := SomePreSend(codes);
  }

  lemma {:induction false} NothingBelow(e: Cause, d: nat)
    requires !Down(e, d).Error?
    ensures forall k: nat :: d <= k ==> !Down(e, k).Error?
  {
    forall k: nat | d <= k ensures !Down(e, k).Error? {
      var i := d;
      while i < k
        invariant d <= i <= k && !Down(e, i).Error?
      {
        DownOne(e, i);
        i := i + 1;
      }
    }
  }

  // ---- The retry loop ----

  /** What one attempt meets: a response, or a thrown error; and whether the caller had aborted by the check. */
  datatype Attempt = Response | Thrown(err: Cause, aborted: bool)

  datatype Result = Answered | Failed(attempts: nat)

  const RELAY_RETRY_DELAYS_MS := [300, 900]

  /** The request may have reached the server: it was answered, or its failure does not prove otherwise. */
  ghost predicate MayBeDelivered(a: Attempt) { a.Response? || !ProvesUnsent(a.err) }

  ghost function Delivered(made: seq<Attempt>): nat {
    if made == [] then 0
    else Delivered(made[..|made| - 1]) + (if MayBeDelivered(made[|made| - 1]) then 1 else 0)
  }

  /** The retry rule, after the k-th attempt (from 0) threw. */
  ghost predicate Retried(k: nat, a: Attempt) {
    a.Thrown? && !a.aborted && k < (if ProvesUnsent(a.err) then 2 else 1)
  }

  /** The attempts a run makes out of what the network has in store: one more after each retried one. */
  ghost predicate IsRun(net: nat -> Attempt, made: seq<Attempt>) {
    && |made| > 0
    && (forall k :: 0 <= k < |made| ==> made[k] == net(k))
    && (forall k :: 0 <= k < |made| - 1 ==> Retried(k, made[k]))
    && !Retried(|made| - 1, made[|made| - 1])
  }

  method CallMcpToolsCall(net: nat -> Attempt) returns (r: Result, made: seq<Attempt>, delays: seq<int>)
    ensures IsRun(net, made)
    ensures r == if made[|made| - 1].Response? then Answered else Failed(|made|)
    ensures |delays| == |made| - 1 && delays <= [300, 900]
  {
    made, delays := [], [];
    var attempt := 0;
    while true
      invariant attempt == |made| == |delays| <= 2
      invariant delays == RELAY_RETRY_DELAYS_MS[..attempt]
      invariant forall k :: 0 <= k < attempt ==> made[k] == net(k) && Retried(k, made[k])
      decreases 3 - attempt
    {
      var now := net(attempt);
      made := made + [now];
      if now.Response? { return Answered, made, delays; }
      var preSend := IsPreSendFailure(now.err);
      var maxRetries := if preSend then |RELAY_RETRY_DELAYS_MS| else 1;
      if !(attempt < maxRetries && !now.aborted) { return Failed(attempt + 1), made, delays; }
      delays := delays + [RELAY_RETRY_DELAYS_MS[attempt]];
      attempt := attempt + 1;
    }
  }

  /** At most three attempts, at most two requests that may have been delivered, a third attempt only after a
      pre-send failure of the second, and none after an abort seen at the check. */
  lemma RetryBounds(net: nat -> Attempt, made: seq<Attempt>)
    requires IsRun(net, made)
    ensures |made| <= 3 && Delivered(made) <= 2
    ensures |made| == 3 ==> ProvesUnsent(made[1].err)
    ensures forall k :: 0 <= k < |made| - 1 ==> made[k].Thrown? && !made[k].aborted
  {
    if |made| > 1 { assert Retried(|made| - 2, made[|made| - 2]); }
    if |made| == 3 {
      assert Retried(0, made[0]) && Retried(1, made[1]);
      assert made[..2][..1] == [made[0]] && made[..2][1] == made[1] && made[..2][..1][..0] == [];
      assert Delivered(made) == Delivered(made[..2]) + if MayBeDelivered(made[2]) then 1 else 0;
      assert Delivered(made[..2]) == Delivered(made[..2][..1]) + if MayBeDelivered(made[1]) then 1 else 0;
    } else {
      DeliveredBound(made);
    }
  }

  lemma {:induction false} DeliveredBound(made: seq<Attempt>)
    ensures Delivered(made) <= |made|
    decreases |made|
  {
    if made == [] {
    } else {
      DeliveredBound(made[..|made| - 1]);
    }
  }

  /** What the network holds decides the run: there is one run, so the method's is it. */
  lemma RunIsUnique(net: nat -> Attempt, a: seq<Attempt>, b: seq<Attempt>)
    requires IsRun(net, a) && IsRun(net, b)
    ensures a == b
  {
    RunLength(net, a);
    RunLength(net, b);
  }

  /** The caller stops at a response and once it has aborted. */
  predicate Stops(a: Attempt) { a.Response? || a.aborted }

  /** A first failure is retried whatever it proves, a second only if it proves that nothing was sent. */
  lemma RunLength(net: nat -> Attempt, made: seq<Attempt>)
    requires IsRun(net, made)
    ensures |made| == if Stops(net(0)) then 1 else if Stops(net(1)) || !ProvesUnsent(net(1).err) then 2 else 3
  {
    RetryBounds(net, made);
    assert made[|made| - 1] == net(|made| - 1);
    if |made| > 1 { assert Retried(|made| - 2, made[|made| - 2]); }
    if |made| > 2 { assert Retried(|made| - 3, made[|made| - 3]); }
  }

  /** An ambiguous failure is retried once, which the comment above the function denies. */
  lemma AmbiguousFailureIsRetried(err: Cause)
    requires !ProvesUnsent(err)
    ensures var net := (k: nat) => if k == 0 then Thrown(err, false) else Response;
            IsRun(net, [Thrown(err, false), Response]) && Delivered([Thrown(err, false), Response]) == 2
  {
    var made := [Thrown(err, false), Response];
    assert made[..1] == [Thrown(err, false)] && made[..1][..0] == [];
    assert Delivered(made[..1]) == 1;
  }

  // ---- The agent's tool catalog ----

  datatype ServerTool = ServerTool(name: string, modelVisible: bool, info: string)

  datatype Server = Server(identity: string, tools: seq<ServerTool>)

  /** How the two requests to one server end: with its identity and tools, or in a rejection. */
  datatype Answer = Answers(server: Server) | Rejects

  datatype CatalogEntry = CatalogEntry(server: string, info: string)

  /** The servers' tools in iteration order, with the server each came from. */
  function Offers(servers: seq<Server>): seq<(string, ServerTool)> {
    if servers == [] then []
    else Offers(servers[..|servers| - 1]) + From(servers[|servers| - 1].identity, servers[|servers| - 1].tools)
  }

  function From(identity: string, tools: seq<ServerTool>): (r: seq<(string, ServerTool)>)
    ensures |r| == |tools|
  {
    seq(|tools|, i requires 0 <= i < |tools| => (identity, tools[i]))
  }

  /** Assigning to the key `__proto__` of a plain object sets its prototype and adds no key. */
  ghost predicate Offered(o: (string, ServerTool), name: string) {
    o.1.name == name && o.1.modelVisible && name != "__proto__"
  }

  /** Each key is the first model-visible offer of its name; every name so offered is a key. */
  ghost predicate FirstWins(offers: seq<(string, ServerTool)>, catalog: map<string, CatalogEntry>) {
    && (forall k :: 0 <= k < |offers| && Offered(offers[k], offers[k].1.name) ==> offers[k].1.name in catalog)
    && (forall name :: name in catalog ==>
          exists k :: 0 <= k < |offers| && Offered(offers[k], name)
            && catalog[name] == CatalogEntry(offers[k].0, offers[k].1.info)
            && forall j :: 0 <= j < k ==> !Offered(offers[j], name))
  }

  lemma FirstWinsStep(offers: seq<(string, ServerTool)>, catalog: map<string, CatalogEntry>, o: (string, ServerTool))
    requires FirstWins(offers, catalog)
    ensures var next := if Offered(o, o.1.name) && o.1.name !in catalog
                        then catalog[o.1.name := CatalogEntry(o.0, o.1.info)] else catalog;
            FirstWins(offers + [o], next)
  {
    var next := if Offered(o, o.1.name) && o.1.name !in catalog
                then catalog[o.1.name := CatalogEntry(o.0, o.1.info)] else catalog;
    var more := offers + [o];
    forall name | name in next
      ensures exists k :: 0 <= k < |more| && Offered(more[k], name)
                && next[name] == CatalogEntry(more[k].0, more[k].1.info)
                && forall j :: 0 <= j < k ==> !Offered(more[j], name)
    {
      if name in catalog {
        var k :| 0 <= k < |offers| && Offered(offers[k], name)
          && catalog[name] == CatalogEntry(offers[k].0, offers[k].1.info)
          && forall j :: 0 <= j < k ==> !Offered(offers[j], name);
        assert more[k] == offers[k] && forall j :: 0 <= j < k ==> more[j] == offers[j];
      } else {
        assert more[|offers|] == o;
        assert forall j :: 0 <= j < |offers| ==> more[j] == offers[j];
      }
    }
  }

  predicate AllAnswer(answers: seq<Answer>) { forall i :: 0 <= i < |answers| ==> answers[i].Answers? }

  function ServersOf(answers: seq<Answer>): seq<Server>
    requires AllAnswer(answers)
  {
    seq(|answers|, i requires 0 <= i < |answers| => answers[i].server)
  }

  /** All or nothing: one rejection rejects the catalog. */
  method BuildAgentCatalog(answers: seq<Answer>) returns (catalog: Option<map<string, CatalogEntry>>)
    ensures catalog.Some? <==> AllAnswer(answers)
    ensures catalog.Some? ==> FirstWins(Offers(ServersOf(answers)), catalog.value)
  {
    var servers: seq<Server> := [];
    for i := 0 to |answers|
      invariant |servers| == i && forall k :: 0 <= k < i ==> answers[k] == Answers(servers[k])
    {
      if answers[i].Rejects? { return None; }
      servers := servers + [answers[i].server];
    }
    assert servers == ServersOf(answers);
    var merged := MergeTools(servers);
    return Some(merged);
  }

  method MergeTools(servers: seq<Server>) returns (catalog: map<string, CatalogEntry>)
    ensures FirstWins(Offers(servers), catalog)
  {
    catalog := map[];
    for s := 0 to |servers|
      invariant FirstWins(Offers(servers[..s]), catalog)
    {
      var server := servers[s];
      ghost var before := Offers(servers[..s]);
      assert before + From(server.identity, server.tools[..0]) == before;
      for t := 0 to |server.tools|
        invariant FirstWins(before + From(server.identity, server.tools[..t]), catalog)
      {
        var tool := server.tools[t];
        FirstWinsStep(before + From(server.identity, server.tools[..t]), catalog, (server.identity, tool));
        assert (before + From(server.identity, server.tools[..t])) + [(server.identity, tool)]
            == before + From(server.identity, server.tools[..t + 1]);
        if !tool.modelVisible { continue; }
        if tool.name in catalog { continue; }
        if tool.name != "__proto__" { catalog := catalog[tool.name := CatalogEntry(server.identity, tool.info)]; }
      }
      assert server.tools[..|server.tools|] == server.tools;
      assert servers[..s + 1][..s] == servers[..s];
    }
    assert servers[..|servers|] == servers;
  }

  // ---- The catalog, said of the servers ----

  predicate IsOffer(servers: seq<Server>, s: nat, t: nat, name: string) {
    s < |servers| && t < |servers[s].tools| && servers[s].tools[t].name == name && servers[s].tools[t].modelVisible
  }

  /** The first model-visible tool of the name, server after server. */
  ghost predicate IsFirstOffer(servers: seq<Server>, s: nat, t: nat, name: string) {
    && IsOffer(servers, s, t, name)
    && forall a: nat, b: nat :: (a < s || (a == s && b < t)) ==> !IsOffer(servers, a, b, name)
  }

  lemma {:induction false} OfferAt(servers: seq<Server>, s: nat, t: nat) returns (k: nat)
    requires s < |servers| && t < |servers[s].tools|
    ensures k < |Offers(servers)| && Offers(servers)[k] == (servers[s].identity, servers[s].tools[t])
    decreases |servers|
  {
    var front := servers[..|servers| - 1];
    if s < |front| { k := OfferAt(front, s, t); } else { k := |Offers(front)| + t; }
  }

  lemma {:induction false} FirstOfferAt(servers: seq<Server>, k: nat, name: string) returns (s: nat, t: nat)
    requires k < |Offers(servers)| && Offered(Offers(servers)[k], name)
    requires forall j :: 0 <= j < k ==> !Offered(Offers(servers)[j], name)
    ensures IsFirstOffer(servers, s, t, name)
    ensures Offers(servers)[k] == (servers[s].identity, servers[s].tools[t])
    decreases |servers|
  {
    var front, last := servers[..|servers| - 1], servers[|servers| - 1];
    if k < |Offers(front)| {
      assert forall j :: 0 <= j <= k ==> Offers(servers)[j] == Offers(front)[j];
      s, t := FirstOfferAt(front, k, name);
      forall a: nat, b: nat | a < s || (a == s && b < t) ensures !IsOffer(servers, a, b, name) {
        assert !IsOffer(front, a, b, name);
      }
    } else {
      s, t := |front|, k - |Offers(front)|;
      forall a: nat, b: nat | a < s || (a == s && b < t) ensures !IsOffer(servers, a, b, name) {
        if a < |front| && b < |front[a].tools| {
          var j := OfferAt(front, a, b);
          assert Offers(servers)[j] == (servers[a].identity, servers[a].tools[b]);
        } else if a == s {
          assert Offers(servers)[|Offers(front)| + b] == (last.identity, last.tools[b]);
        }
      }
    }
  }

  /** The catalog of servers in order: a name is a key exactly if some server offers it to the model (and it is not
      `__proto__`), with the server and the description of the first such offer. */
  lemma CatalogIs(servers: seq<Server>, catalog: map<string, CatalogEntry>, name: string)
    requires FirstWins(Offers(servers), catalog)
    ensures name in catalog <==> name != "__proto__" && exists s: nat, t: nat :: IsOffer(servers, s, t, name)
    ensures name in catalog ==>
              exists s: nat, t: nat :: IsFirstOffer(servers, s, t, name)
                && catalog[name] == CatalogEntry(servers[s].identity, servers[s].tools[t].info)
  {
    var offers := Offers(servers);
    if name in catalog {
      var k :| 0 <= k < |offers| && Offered(offers[k], name)
        && catalog[name] == CatalogEntry(offers[k].0, offers[k].1.info)
        && forall j :: 0 <= j < k ==> !Offered(offers[j], name);
      var s, t := FirstOfferAt(servers, k, name);
    }
    if name != "__proto__" && exists s: nat, t: nat :: IsOffer(servers, s, t, name) {
      var s: nat, t: nat :| IsOffer(servers, s, t, name);
      var k := OfferAt(servers, s, t);
      assert Offered(offers[k], offers[k].1.name);
    }
  }
}
