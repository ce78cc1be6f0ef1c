/**
 * The request orchestrator (pyllow/__init__.py): replays one request per
 * payload and loop, injects the bearer token, answers a 401 with one refresh
 * and one resend, matches every response against the conditions, counts the
 * dispatches, and finally decides which files are written and how.
 */
module Orchestrator {
  import opened Wrappers
  import opened Json
  import opened Transport
  import opened TokenManager

  // ---------------------------------------------------------------------
  // Method names, the request budget and the dispatch order
  // ---------------------------------------------------------------------

  function UpperChar(c: char): char
  {
    if 'a' <= c <= 'z' then (c as int - 32) as char else c
  }

  /** `str.upper()` on ASCII letters: lower-case letters move up by 32 code points, every other character stays. */
  function Upper(s: string): (r: string)
    ensures |r| == |s|
    ensures forall i :: 0 <= i < |s| && 'a' <= s[i] <= 'z' ==> r[i] as int == s[i] as int - 32 && 'A' <= r[i] <= 'Z'
    ensures forall i :: 0 <= i < |s| && !('a' <= s[i] <= 'z') ==> r[i] == s[i]
  {
    seq(|s|, i requires 0 <= i < |s| => UpperChar(s[i]))
  }

  /** Upper-casing twice is upper-casing once. */
  lemma UpperIdempotent(s: string)
    ensures Upper(Upper(s)) == Upper(s)
  {
    assert forall i :: 0 <= i < |s| ==> Upper(Upper(s))[i] == Upper(s)[i];
  }

  predicate IsPost(httpMethod: string)
  {
    Upper(httpMethod) == "POST"
  }

  predicate IsGet(httpMethod: string)
  {
    Upper(httpMethod) == "GET"
  }

  /** The method name is compared case-insensitively, and no name is both POST and GET. */
  lemma MethodNameExample(m: string)
    ensures IsPost("post") && IsPost("PoSt") && IsGet("get") && !IsPost("put") && !IsGet("post")
    ensures !(IsPost(m) && IsGet(m))
  {
    assert Upper("post") == "POST";
    assert Upper("PoSt") == "POST";
    assert Upper("get") == "GET";
    assert Upper("put")[0] == 'P' && Upper("put")[1] == 'U';
    assert |Upper("post")| == 4;
  }

  /**
   * `total_requests`, computed once by the constructor: never negative for a
   * non-negative loop count, at least one request per loop when there is a
   * payload, and zero when there are no loops.
   */
  function TotalRequests(httpMethod: string, payloadCount: nat, loops: int): (r: int)
    ensures loops >= 0 ==> r >= 0
    ensures loops >= 0 && payloadCount > 0 ==> r >= loops
    ensures loops == 0 ==> r == 0
    ensures IsPost(httpMethod) ==> r == payloadCount * loops
    ensures !IsPost(httpMethod) ==> r == loops
  {
    if IsPost(httpMethod) then payloadCount * loops else loops
  }

  /** `block` repeated `times` times, one copy after another. */
  function Repeat(block: seq<Payload>, times: nat): seq<Payload>
  {
    if times == 0 then [] else Repeat(block, times - 1) + block
  }

  lemma {:induction false} RepeatLength(block: seq<Payload>, times: nat)
    ensures |Repeat(block, times)| == |block| * times
  {
    if times > 0 {
      RepeatLength(block, times - 1);
    }
  }

  /** A repetition holds nothing but entries of the block. */
  lemma {:induction false} RepeatMembers(block: seq<Payload>, times: nat)
    ensures forall k :: 0 <= k < |Repeat(block, times)| ==> Repeat(block, times)[k] in block
  {
    if times > 0 {
      RepeatMembers(block, times - 1);
    }
  }

  /**
   * The payloads `run` hands to `_make_request`, in order. Its length is the
   * budget whenever the loop count is not negative; POST sends only the given
   * payloads, any other method only `{}`; no loops, no dispatch.
   */
  function Schedule(httpMethod: string, payloads: seq<Payload>, loops: int): (r: seq<Payload>)
    ensures loops >= 0 ==> |r| == TotalRequests(httpMethod, |payloads|, loops)
    ensures loops <= 0 ==> r == []
    ensures IsPost(httpMethod) ==> forall k :: 0 <= k < |r| ==> r[k] in payloads
    ensures !IsPost(httpMethod) ==> forall k :: 0 <= k < |r| ==> r[k] == map[]
  {
    var block := if IsPost(httpMethod) then payloads else [map[]];
    RepeatLength(block, if loops > 0 then loops else 0);
    RepeatMembers(block, if loops > 0 then loops else 0);
    Repeat(block, if loops > 0 then loops else 0)
  }

  /** Copy `i` of the block starts at position `i * |block|`: the repetition keeps the block's order. */
  lemma {:induction false} RepeatAt(block: seq<Payload>, times: nat, i: nat, j: nat)
    requires i < times && j < |block|
    ensures i * |block| + j < |Repeat(block, times)|
    ensures Repeat(block, times)[i * |block| + j] == block[j]
  {
    RepeatLength(block, times - 1);
    if i < times - 1 {
      assert i * |block| + j < (i + 1) * |block| <= (times - 1) * |block| by {
        assert (i + 1) * |block| == i * |block| + |block|;
        MulMonotone(i + 1, times - 1, |block|);
      }
      RepeatAt(block, times - 1, i, j);
    } else {
      assert i * |block| == |block| * (times - 1);
    }
  }

  lemma MulMonotone(a: nat, b: nat, n: nat)
    requires a <= b
    ensures a * n <= b * n
  {
  }

  /** The dispatch order: POST sends `payloads` concatenated `loops` times; any other method sends `{}` each loop. */
  lemma ScheduleOrder(httpMethod: string, payloads: seq<Payload>, loops: int, i: nat, j: nat)
    requires i < loops
    ensures IsPost(httpMethod) && j < |payloads| ==>
              i * |payloads| + j < |Schedule(httpMethod, payloads, loops)| &&
              Schedule(httpMethod, payloads, loops)[i * |payloads| + j] == payloads[j]
    ensures !IsPost(httpMethod) ==>
              |Schedule(httpMethod, payloads, loops)| == loops && Schedule(httpMethod, payloads, loops)[i] == map[]
  {
    if IsPost(httpMethod) && j < |payloads| {
      RepeatAt(payloads, loops, i, j);
    }
    if !IsPost(httpMethod) {
      RepeatAt([map[]], loops, i, 0);
    }
  }

  /** Two payloads and two loops under POST give four dispatches, in the order p1, p2, p1, p2. */
  lemma ScheduleExample(p1: Payload, p2: Payload)
    ensures Schedule("POST", [p1, p2], 2) == [p1, p2, p1, p2]
    ensures TotalRequests("POST", 2, 2) == 4
  {
    assert Upper("POST") == "POST";
    assert Repeat([p1, p2], 1) == [p1, p2];
  }

  // ---------------------------------------------------------------------
  // Conditions
  // ---------------------------------------------------------------------

  /** One user condition; an absent key is `None`. */
  datatype Condition = Condition(
    statusCodes: Option<seq<int>>,
    messages: Option<seq<string>>,
    outputFile: Option<string>)

  /** The entry of `condition_results` kept for one condition. */
  datatype ConditionResult = ConditionResult(condition: Condition, results: seq<string>)

  /** Python truthiness of an optional string: present and non-empty. */
  predicate Truthy(s: Option<string>)
  {
    s.Some? && s.value != ""
  }

  /** `needle` stands in `haystack` at position `i`. */
  ghost predicate OccursAt(needle: string, haystack: string, i: int)
  {
    0 <= i <= |haystack| - |needle| && haystack[i..i + |needle|] == needle
  }

  lemma OccursShift(needle: string, haystack: string)
    requires |needle| <= |haystack| && !(needle <= haystack)
    ensures (exists i :: OccursAt(needle, haystack, i)) <==> (exists i :: OccursAt(needle, haystack[1..], i))
  {
    if exists i :: OccursAt(needle, haystack, i) {
      var i :| OccursAt(needle, haystack, i);
      assert i != 0;
      assert haystack[1..][i - 1..i - 1 + |needle|] == haystack[i..i + |needle|];
      assert OccursAt(needle, haystack[1..], i - 1);
    }
    if exists i :: OccursAt(needle, haystack[1..], i) {
      var i :| OccursAt(needle, haystack[1..], i);
      assert haystack[1..][i..i + |needle|] == haystack[i + 1..i + 1 + |needle|];
      assert OccursAt(needle, haystack, i + 1);
    }
  }

  /** Python's `needle in haystack` on strings. */
  function Occurs(needle: string, haystack: string): (r: bool)
    ensures r <==> exists i :: OccursAt(needle, haystack, i)
    decreases |haystack|
  {
    if |needle| > |haystack| then
      false
    else if needle <= haystack then
      assert OccursAt(needle, haystack, 0);
      true
    else
      OccursShift(needle, haystack);
      Occurs(needle, haystack[1..])
  }

  /** `any(message in content for message in messages)`. */
  function AnyOccurs(messages: seq<string>, content: string): (r: bool)
    ensures r <==> exists k :: 0 <= k < |messages| && Occurs(messages[k], content)
    decreases |messages|
  {
    if messages == [] then false
    else Occurs(messages[0], content) || AnyOccurs(messages[1..], content)
  }

  /**
   * The matcher: a status clause AND a substring clause, where an absent or
   * empty list of status codes or of messages imposes nothing.
   */
  function Matches(c: Condition, status: int, content: string): (r: bool)
    ensures r <==> (c.statusCodes.None? || c.statusCodes.value == [] || status in c.statusCodes.value)
                   && (c.messages.None? || c.messages.value == [] ||
                       exists k, i :: 0 <= k < |c.messages.value| && OccursAt(c.messages.value[k], content, i))
    ensures c.statusCodes.None? && c.messages.None? ==> r
  {
    var statusOk := c.statusCodes.None? || c.statusCodes.value == [] || status in c.statusCodes.value;
    var messageOk := c.messages.None? || c.messages.value == [] || AnyOccurs(c.messages.value, content);
    statusOk && messageOk
  }

  /** The condition `{status_codes: [200], messages: ["ok"]}` takes a 200 saying "ok" and refuses a 200 saying "fail". */
  lemma MatchesExample()
    ensures Matches(Condition(Some([200]), Some(["ok"]), None), 200, "all ok")
    ensures !Matches(Condition(Some([200]), Some(["ok"]), None), 200, "fail")
    ensures !Matches(Condition(Some([200]), Some(["ok"]), None), 500, "ok")
  {
    assert OccursAt("ok", "all ok", 4);
    forall i | 0 <= i <= 2
      ensures !OccursAt("ok", "fail", i)
    {
      assert "fail"[i..i + 2] != "ok" by {
        assert "fail"[i..i + 2][0] == "fail"[i];
      }
    }
  }

  /** One condition's entry after a response: the body is appended iff the condition holds. */
  function Record(cr: ConditionResult, status: int, content: string): (r: ConditionResult)
    ensures r.condition == cr.condition
    ensures cr.results <= r.results
    ensures |r.results| == |cr.results| + 1 <==> Matches(cr.condition, status, content)
    ensures !Matches(cr.condition, status, content) ==> r.results == cr.results
    ensures Matches(cr.condition, status, content) ==> r.results[|cr.results|] == content
  {
    if Matches(cr.condition, status, content) then cr.(results := cr.results + [content]) else cr
  }

  /** Every condition's entry after a response; each entry changes only through its own condition. */
  function RecordAll(crs: seq<ConditionResult>, status: int, content: string): (r: seq<ConditionResult>)
    ensures |r| == |crs|
    ensures forall i :: 0 <= i < |crs| ==>
              r[i].condition == crs[i].condition &&
              r[i].results == crs[i].results + (if Matches(crs[i].condition, status, content) then [content] else [])
  {
    seq(|crs|, i requires 0 <= i < |crs| => Record(crs[i], status, content))
  }

  /** No deduplication: the same matching response recorded twice is appended twice. */
  lemma RecordTwice(cr: ConditionResult, status: int, content: string)
    requires Matches(cr.condition, status, content)
    ensures Record(Record(cr, status, content), status, content).results == cr.results + [content, content]
  {
  }

  // ---------------------------------------------------------------------
  // One dispatch, as a function of the state it reads and writes
  // ---------------------------------------------------------------------

  /** The orchestrator's fixed settings; `token` holds the credentials of the Token, if any. */
  datatype Settings = Settings(
    httpMethod: string,
    url: string,
    params: Option<Payload>,
    verifySsl: bool,
    saveOutput: bool,
    token: Option<Credentials>)

  /**
   * Everything a dispatch reads or writes: the shared headers, the token's
   * two mutable fields (unused without a token), the transport's remaining
   * script and its log, and the result lists.
   */
  datatype World = World(
    headers: map<string, string>,
    access: Option<string>,
    refresh: string,
    script: seq<Outcome>,
    log: seq<Request>,
    results: seq<string>,
    condResults: seq<ConditionResult>)

  /** The `Authorization` value formatted from an access token; Python prints `None` as "None". */
  function Bearer(accessToken: Option<string>): (r: string)
    ensures |r| >= 7 && r[..7] == "Bearer "
    ensures accessToken.Some? ==> r[7..] == accessToken.value
    ensures accessToken.None? ==> r[7..] == "None"
  {
    "Bearer " + if accessToken.Some? then accessToken.value else "None"
  }

  /** The arguments of `make_request` in `_make_request`: POST carries the payload, GET the query parameters. */
  function RequestFor(s: Settings, payload: Payload, headers: map<string, string>): (r: Request)
    ensures r.httpMethod == s.httpMethod && r.url == s.url && r.headers == headers && r.verifySsl == s.verifySsl
    ensures r.data.Some? <==> IsPost(s.httpMethod)
    ensures r.data.Some? ==> r.data.value == payload
    ensures r.params.Some? ==> IsGet(s.httpMethod) && r.params == s.params
    ensures IsGet(s.httpMethod) ==> r.params == s.params
    ensures !(r.data.Some? && r.params.Some?)
  {
    Request(s.httpMethod, s.url, headers,
            if IsPost(s.httpMethod) then Some(payload) else None,
            if IsGet(s.httpMethod) then s.params else None,
            s.verifySsl)
  }

  /** The headers after the injection step: the bearer header only when a token holds a non-empty access token. */
  function AuthHeaders(s: Settings, w: World): (r: map<string, string>)
    ensures forall k :: k != "Authorization" ==> (k in r <==> k in w.headers)
    ensures forall k :: k in r && k != "Authorization" ==> r[k] == w.headers[k]
    ensures s.token.Some? && Truthy(w.access) ==> "Authorization" in r && r["Authorization"] == Bearer(w.access)
    ensures !(s.token.Some? && Truthy(w.access)) ==> r == w.headers
  {
    if s.token.Some? && Truthy(w.access) then w.headers["Authorization" := Bearer(w.access)] else w.headers
  }

  /**
   * `_process_response`: touches only the saved bodies, which gain exactly
   * this body iff `save_output`, and the condition entries, one per condition.
   */
  function Process(s: Settings, w: World, status: int, content: string): (r: World)
    ensures r.headers == w.headers && r.access == w.access && r.refresh == w.refresh
    ensures r.script == w.script && r.log == w.log
    ensures w.results <= r.results
    ensures s.saveOutput <==> |r.results| == |w.results| + 1
    ensures !s.saveOutput ==> r.results == w.results
    ensures s.saveOutput ==> r.results[|w.results|] == content
    ensures |r.condResults| == |w.condResults|
  {
    w.(results := if s.saveOutput then w.results + [content] else w.results,
       condResults := RecordAll(w.condResults, status, content))
  }

  /** A first reply the token is asked to answer. */
  function Challenged(s: Settings, reply: Outcome): (r: bool)
    ensures r ==> reply.Response? && reply.status == 401
    ensures reply.Response? && reply.status == 401 ==> (r <==> s.token.Some?)
  {
    reply.Response? && reply.status == 401 && s.token.Some?
  }

  /**
   * `_make_request(payload)`: inject the bearer header, send; on a 401 with a
   * token, refresh once, set the new header and send once more; process the
   * last response. Any failure abandons the dispatch with nothing processed.
   */
  function Dispatch(s: Settings, w: World, payload: Payload): (r: World)
    ensures w.log < r.log && |r.log| <= |w.log| + 3
    ensures w.results <= r.results && |r.results| <= |w.results| + 1
    ensures !s.saveOutput ==> r.results == w.results
    ensures |r.condResults| == |w.condResults|
    ensures s.token.None? ==> r.access == w.access && r.refresh == w.refresh
  {
    var h0 := AuthHeaders(s, w);
    var first := Head(w.script);
    var w1 := w.(headers := h0, script := Tail(w.script), log := w.log + [RequestFor(s, payload, h0)]);
    if first.TransportError? then
      w1
    else if Challenged(s, first) then
      Retried(s, w1, payload)
    else
      Process(s, w1, first.status, first.text)
  }

  /**
   * The 401 branch of `_make_request`, after the first request: refresh with
   * the current headers; on success set the new bearer header and resend
   * once, then process that reply.
   */
  function Retried(s: Settings, w: World, payload: Payload): (r: World)
    requires s.token.Some?
    ensures w.log < r.log && |r.log| <= |w.log| + 2
    ensures w.results <= r.results && |r.results| <= |w.results| + 1
    ensures !s.saveOutput ==> r.results == w.results
    ensures |r.condResults| == |w.condResults|
  {
    var step := Refreshed(s.token.value, TokenState(w.access, w.refresh), Head(w.script));
    var w2 := w.(script := Tail(w.script), log := w.log + [RefreshRequest(s.token.value, w.refresh, w.headers)]);
    if step.result.Err? then
      w2
    else
      var h1 := w.headers["Authorization" := Bearer(step.state.access)];
      var second := Head(w2.script);
      var w3 := w2.(access := step.state.access, refresh := step.state.refresh, headers := h1,
                    script := Tail(w2.script), log := w2.log + [RequestFor(s, payload, h1)]);
      if second.TransportError? then w3 else Process(s, w3, second.status, second.text)
  }

  /**
   * Without a 401 that a token can answer, one request is sent, the injected
   * header stays in the headers, the token is untouched, and the reply (if
   * any) is processed.
   */
  lemma DispatchUnchallenged(s: Settings, w: World, payload: Payload)
    requires !Challenged(s, Head(w.script))
    ensures var w' := Dispatch(s, w, payload);
            var first := Head(w.script);
            && w'.log == w.log + [RequestFor(s, payload, AuthHeaders(s, w))]
            && w'.script == Tail(w.script)
            && w'.headers == AuthHeaders(s, w)
            && w'.access == w.access && w'.refresh == w.refresh
            && (first.TransportError? ==> w'.results == w.results && w'.condResults == w.condResults)
            && (first.Response? ==>
                  w'.results == (if s.saveOutput then w.results + [first.text] else w.results) &&
                  w'.condResults == RecordAll(w.condResults, first.status, first.text))
  {
  }

  /**
   * On a 401 with a token: exactly one refresh request follows, carrying the
   * headers of the first request; if the refresh fails nothing is processed
   * and the headers keep the header injected before the first request;
   * if it succeeds exactly one resend follows, identical but for the new
   * bearer header, which stays in the headers for later dispatches, and its
   * reply is the one processed, even another 401.
   */
  lemma DispatchChallenged(s: Settings, w: World, payload: Payload)
    requires Challenged(s, Head(w.script))
    ensures var w' := Dispatch(s, w, payload);
            var h0 := AuthHeaders(s, w);
            var first := RequestFor(s, payload, h0);
            var step := Refreshed(s.token.value, TokenState(w.access, w.refresh), Head(Tail(w.script)));
            var second := Head(Tail(Tail(w.script)));
            && (step.result.Err? ==>
                  && w'.log == w.log + [first, RefreshRequest(s.token.value, w.refresh, h0)]
                  && w'.script == Tail(Tail(w.script))
                  && w'.headers == h0
                  && w'.access == w.access && w'.refresh == w.refresh
                  && w'.results == w.results && w'.condResults == w.condResults)
            && (step.result.Ok? ==>
                  && w'.log == w.log + [first, RefreshRequest(s.token.value, w.refresh, h0),
                                        first.(headers := h0["Authorization" := Bearer(step.state.access)])]
                  && w'.script == Tail(Tail(Tail(w.script)))
                  && w'.headers == h0["Authorization" := Bearer(step.state.access)]
                  && w'.access == step.state.access && w'.refresh == step.state.refresh
                  && (second.TransportError? ==> w'.results == w.results && w'.condResults == w.condResults)
                  && (second.Response? ==>
                        w'.results == (if s.saveOutput then w.results + [second.text] else w.results) &&
                        w'.condResults == RecordAll(w.condResults, second.status, second.text)))
  {
  }

  /** The dispatches of `payloads`, one after another. */
  function DispatchAll(s: Settings, w: World, payloads: seq<Payload>): (r: World)
    ensures w.log <= r.log
    ensures payloads != [] ==> w.log < r.log
    decreases |payloads|
  {
    if payloads == [] then w
    else Dispatch(s, DispatchAll(s, w, payloads[..|payloads| - 1]), payloads[|payloads| - 1])
  }

  /** One more dispatch after a prefix of `batch` extends the prefix by one. */
  lemma DispatchAllPrefix(s: Settings, w0: World, batch: seq<Payload>, j: nat, before: World, after: World)
    requires j < |batch|
    requires before == DispatchAll(s, w0, batch[..j])
    requires after == Dispatch(s, before, batch[j])
    ensures after == DispatchAll(s, w0, batch[..j + 1])
  {
    assert batch[..j + 1][..j] == batch[..j];
  }

  /** Dispatching `a` then `b` is dispatching `a + b`. */
  lemma {:induction false} DispatchAllAppend(s: Settings, w: World, a: seq<Payload>, b: seq<Payload>)
    ensures DispatchAll(s, w, a + b) == DispatchAll(s, DispatchAll(s, w, a), b)
    decreases |b|
  {
    if b == [] {
      assert a + b == a;
    } else {
      var init := b[..|b| - 1];
      assert (a + b)[..|a + b| - 1] == a + init;
      DispatchAllAppend(s, w, a, init);
    }
  }

  /** One more pass of `block` after `n` passes is `n + 1` passes. */
  lemma DispatchAllRepeat(s: Settings, w0: World, block: seq<Payload>, n: nat, before: World, after: World)
    requires before == DispatchAll(s, w0, Repeat(block, n))
    requires after == DispatchAll(s, before, block)
    ensures after == DispatchAll(s, w0, Repeat(block, n + 1))
  {
    DispatchAllAppend(s, w0, Repeat(block, n), block);
  }

  /** One condition entry per condition, in order, for the whole run; entries only grow. */
  lemma {:induction false} DispatchAllKeepsConditions(s: Settings, w: World, payloads: seq<Payload>)
    ensures var w' := DispatchAll(s, w, payloads);
            && |w'.condResults| == |w.condResults|
            && forall i :: 0 <= i < |w.condResults| ==>
                 w'.condResults[i].condition == w.condResults[i].condition &&
                 w.condResults[i].results <= w'.condResults[i].results
    decreases |payloads|
  {
    if payloads != [] {
      DispatchAllKeepsConditions(s, w, payloads[..|payloads| - 1]);
    }
  }

  /** Each dispatch sends one request, or three when a 401 is answered by a refresh; at most one retry ever. */
  lemma {:induction false} DispatchAllRequestCount(s: Settings, w: World, payloads: seq<Payload>)
    ensures var w' := DispatchAll(s, w, payloads);
            |w.log| + |payloads| <= |w'.log| <= |w.log| + 3 * |payloads|
    decreases |payloads|
  {
    if payloads != [] {
      DispatchAllRequestCount(s, w, payloads[..|payloads| - 1]);
    }
  }

  /** At most one saved body per dispatch, and none at all without `save_output`. */
  lemma {:induction false} DispatchAllResults(s: Settings, w: World, payloads: seq<Payload>)
    ensures var w' := DispatchAll(s, w, payloads);
            && w.results <= w'.results
            && |w'.results| <= |w.results| + |payloads|
            && (!s.saveOutput ==> w'.results == w.results)
    decreases |payloads|
  {
    if payloads != [] {
      DispatchAllResults(s, w, payloads[..|payloads| - 1]);
    }
  }

  // ---------------------------------------------------------------------
  // Persisting the results
  // ---------------------------------------------------------------------

  /** The open mode: append only when asked to and the file exists, otherwise truncate. */
  function Mode(appendLogs: bool, fileExists: bool): (r: string)
    ensures r == "a" || r == "w"
    ensures r == "a" <==> appendLogs && fileExists
  {
    if appendLogs && fileExists then "a" else "w"
  }

  /** The text written for a list of bodies: one body per line. */
  function Lines(results: seq<string>): (r: string)
    ensures r == "" <==> results == []
    decreases |results|
  {
    if results == [] then "" else Lines(results[..|results| - 1]) + results[|results| - 1] + "\n"
  }

  lemma {:induction false} LinesAppend(a: seq<string>, b: seq<string>)
    ensures Lines(a + b) == Lines(a) + Lines(b)
    decreases |b|
  {
    if b == [] {
      assert a + b == a;
    } else {
      var init := b[..|b| - 1];
      assert (a + b)[..|a + b| - 1] == a + init;
      LinesAppend(a, init);
    }
  }

  /**
   * The file system (path to content) after writing `results` to `path` in
   * the mode chosen for it: appending to an existing file keeps its content
   * in front; otherwise the file holds exactly the new lines; no other file
   * changes.
   */
  function WriteLines(fs: map<string, string>, path: string, appendLogs: bool, results: seq<string>): (r: map<string, string>)
    ensures r.Keys == fs.Keys + {path}
    ensures appendLogs && path in fs ==> r[path] == fs[path] + Lines(results)
    ensures !(appendLogs && path in fs) ==> r[path] == Lines(results)
    ensures forall p :: p in fs && p != path ==> r[p] == fs[p]
  {
    var mode := Mode(appendLogs, path in fs);
    fs[path := (if mode == "a" && path in fs then fs[path] else "") + Lines(results)]
  }

  /** Two appending saves to one file leave the same content as one save of both lists. */
  lemma AppendingSavesCompose(fs: map<string, string>, path: string, a: seq<string>, b: seq<string>)
    requires path in fs
    ensures WriteLines(WriteLines(fs, path, true, a), path, true, b) == WriteLines(fs, path, true, a + b)
  {
    LinesAppend(a, b);
    assert fs[path] + Lines(a) + Lines(b) == fs[path] + Lines(a + b);
  }

  /** A condition entry that gets its own file: a truthy `output_file` and at least one match. */
  predicate WritesFile(cr: ConditionResult)
  {
    Truthy(cr.condition.outputFile) && cr.results != []
  }

  /** `_save_condition_results`: each entry that gets a file is written in turn, its mode decided at that moment. */
  function SaveConditions(fs: map<string, string>, crs: seq<ConditionResult>, appendLogs: bool): (r: map<string, string>)
    ensures fs.Keys <= r.Keys
    decreases |crs|
  {
    if crs == [] then fs
    else
      var before := SaveConditions(fs, crs[..|crs| - 1], appendLogs);
      var last := crs[|crs| - 1];
      if WritesFile(last) then WriteLines(before, last.condition.outputFile.value, appendLogs, last.results)
      else before
  }

  /** A file no writing condition names keeps its presence and content. */
  lemma {:induction false} SaveConditionsUntouched(fs: map<string, string>, crs: seq<ConditionResult>, appendLogs: bool, p: string)
    requires forall k :: 0 <= k < |crs| && WritesFile(crs[k]) ==> crs[k].condition.outputFile.value != p
    ensures var fs' := SaveConditions(fs, crs, appendLogs);
            (p in fs' <==> p in fs) && (p in fs ==> fs'[p] == fs[p])
    decreases |crs|
  {
    if crs != [] {
      var init := crs[..|crs| - 1];
      forall k | 0 <= k < |init| && WritesFile(init[k])
        ensures init[k].condition.outputFile.value != p
      {
        assert init[k] == crs[k];
      }
      SaveConditionsUntouched(fs, init, appendLogs, p);
    }
  }

  /**
   * A condition entry with a truthy output file and at least one match is
   * written: unless a later writing entry names the same file, that file ends
   * holding the entry's lines, after the earlier content only when appending
   * to a file that existed when it was opened.
   */
  lemma {:induction false} SaveConditionsWrites(fs: map<string, string>, crs: seq<ConditionResult>, appendLogs: bool, k: nat)
    requires k < |crs| && WritesFile(crs[k])
    requires forall j :: k < j < |crs| && WritesFile(crs[j]) ==>
               crs[j].condition.outputFile.value != crs[k].condition.outputFile.value
    ensures var p := crs[k].condition.outputFile.value;
            var mid := SaveConditions(fs, crs[..k], appendLogs);
            var fs' := SaveConditions(fs, crs, appendLogs);
            && p in fs'
            && fs'[p] == (if appendLogs && p in mid then mid[p] else "") + Lines(crs[k].results)
    decreases |crs|
  {
    var init := crs[..|crs| - 1];
    if k == |crs| - 1 {
      assert init == crs[..k];
    } else {
      assert init[..k] == crs[..k];
      forall j | k < j < |init| && WritesFile(init[j])
        ensures init[j].condition.outputFile.value != init[k].condition.outputFile.value
      {
        assert init[j] == crs[j];
      }
      SaveConditionsWrites(fs, init, appendLogs, k);
    }
  }

  // ---------------------------------------------------------------------
  // The orchestrator object
  // ---------------------------------------------------------------------

  class Pyllow {
    const httpMethod: string
    const url: string
    var headers: map<string, string>
    const payloads: seq<Payload>
    const params: Option<Payload>
    const token: Token?
    const saveOutput: bool
    const outputFile: string
    const conditions: seq<Condition>
    const verifySsl: bool
    const loops: int
    const appendLogs: bool
    var results: seq<string>
    const totalRequests: int
    var completedRequests: int
    var conditionResults: seq<ConditionResult>

    ghost predicate Valid()
      reads this
    {
      && |payloads| > 0
      && totalRequests == TotalRequests(httpMethod, |payloads|, loops)
      && |conditionResults| == |conditions|
      && forall i :: 0 <= i < |conditions| ==> conditionResults[i].condition == conditions[i]
    }

    function Config(): Settings
    {
      Settings(httpMethod, url, params, verifySsl, saveOutput, if token != null then Some(token.Creds()) else None)
    }

    ghost function State(net: Network): World
      reads this, token, net
    {
      World(headers,
            if token != null then token.accessToken else None,
            if token != null then token.refreshToken else "",
            net.script, net.log, results, conditionResults)
    }

    constructor (httpMethod: string, url: string, headers: map<string, string>,
                 payloads: Option<seq<Payload>> := None,
                 params: Option<Payload> := None,
                 token: Token? := null,
                 saveOutput: bool := false,
                 outputFile: string := "output.txt",
                 conditions: Option<seq<Condition>> := None,
                 verifySsl: bool := true,
                 loops: int := 1,
                 appendLogs: bool := false)
      ensures Valid()
      ensures this.payloads == if payloads.None? || payloads == Some([]) then [map[]] else payloads.value
      ensures this.conditions == if conditions.None? then [] else conditions.value
      ensures totalRequests == TotalRequests(httpMethod, |this.payloads|, loops)
      ensures completedRequests == 0 && results == []
      ensures forall i :: 0 <= i < |this.conditions| ==> conditionResults[i] == ConditionResult(this.conditions[i], [])
      ensures this.httpMethod == httpMethod && this.url == url && this.headers == headers
      ensures this.params == params && this.token == token && this.saveOutput == saveOutput
      ensures this.outputFile == outputFile && this.verifySsl == verifySsl
      ensures this.loops == loops && this.appendLogs == appendLogs
    {
      this.httpMethod := httpMethod;
      this.url := url;
      this.headers := headers;
      var ps := if payloads.None? || payloads == Some([]) then [map[]] else payloads.value;
      this.payloads := ps;
      this.params := params;
      this.token := token;
      this.saveOutput := saveOutput;
      this.outputFile := outputFile;
      var cs := if conditions.None? then [] else conditions.value;
      this.conditions := cs;
      this.verifySsl := verifySsl;
      this.loops := loops;
      this.appendLogs := appendLogs;
      this.results := [];
      this.totalRequests := TotalRequests(httpMethod, |ps|, loops);
      this.completedRequests := 0;
      var crs: seq<ConditionResult> := [];
      for i := 0 to |cs|
        invariant |crs| == i
        invariant forall k :: 0 <= k < i ==> crs[k] == ConditionResult(cs[k], [])
      {
        crs := crs + [ConditionResult(cs[i], [])];
      }
      this.conditionResults := crs;
    }

    /** `run`: every scheduled dispatch, counted whether or not it succeeded, then the saves. */
    method Run(net: Network, fs: map<string, string>) returns (fs': map<string, string>)
      requires Valid()
      modifies this, net, token
      ensures Valid()
      ensures completedRequests == old(completedRequests) + |Schedule(httpMethod, payloads, loops)|
      ensures old(completedRequests) == 0 ==> completedRequests == if loops >= 0 then totalRequests else 0
      ensures State(net) == DispatchAll(Config(), old(State(net)), Schedule(httpMethod, payloads, loops))
      ensures fs' == SaveConditions(if saveOutput then WriteLines(fs, outputFile, appendLogs, results) else fs,
                                    conditionResults, appendLogs)
    {
      RunLoops(net);
      fs' := fs;
      if saveOutput {
        fs' := SaveResults(fs');
      }
      fs' := SaveConditionResults(fs');
    }

    /** The loop of `run`: `loops` passes, each over every payload for POST and over `{}` otherwise. */
    method RunLoops(net: Network)
      requires Valid()
      modifies this, net, token
      ensures Valid()
      ensures completedRequests == old(completedRequests) + |Schedule(httpMethod, payloads, loops)|
      ensures State(net) == DispatchAll(Config(), old(State(net)), Schedule(httpMethod, payloads, loops))
    {
      var times := if loops > 0 then loops else 0;
      if IsPost(httpMethod) {
        Repeatedly(payloads, times, net);
      } else {
        Repeatedly([map[]], times, net);
      }
    }

    /** `times` passes over `block`, each counted dispatch by dispatch. */
    method Repeatedly(block: seq<Payload>, times: nat, net: Network)
      requires Valid()
      modifies this, net, token
      ensures Valid()
      ensures completedRequests == old(completedRequests) + |Repeat(block, times)|
      ensures State(net) == DispatchAll(Config(), old(State(net)), Repeat(block, times))
    {
      ghost var w0 := State(net);
      var loop := 0;
      while loop < times
        invariant Valid()
        invariant 0 <= loop <= times
        invariant completedRequests == old(completedRequests) + |Repeat(block, loop)|
        invariant State(net) == DispatchAll(Config(), w0, Repeat(block, loop))
      {
        ghost var before := State(net);
        MakeRequests(block, net);
        DispatchAllRepeat(Config(), w0, block, loop, before, State(net));
        loop := loop + 1;
      }
    }

    /** One pass of the loop body of `run`: `_make_request` for each of `batch`, in order, each counted. */
    method MakeRequests(batch: seq<Payload>, net: Network)
      requires Valid()
      modifies this, net, token
      ensures Valid()
      ensures completedRequests == old(completedRequests) + |batch|
      ensures State(net) == DispatchAll(Config(), old(State(net)), batch)
    {
      ghost var w0 := State(net);
      for j := 0 to |batch|
        invariant Valid()
        invariant completedRequests == old(completedRequests) + j
        invariant State(net) == DispatchAll(Config(), w0, batch[..j])
      {
        ghost var before := State(net);
        MakeRequest(batch[j], net);
        completedRequests := completedRequests + 1;
        DispatchAllPrefix(Config(), w0, batch, j, before, State(net));
      }
      assert batch[..|batch|] == batch;
    }

    /** `_make_request(payload)`, proved against `Dispatch`. */
    method MakeRequest(payload: Payload, net: Network)
      requires Valid()
      modifies this, net, token
      ensures Valid()
      ensures completedRequests == old(completedRequests)
      ensures State(net) == Dispatch(Config(), old(State(net)), payload)
    {
      if token != null && Truthy(token.accessToken) {
        headers := headers["Authorization" := Bearer(token.accessToken)];
      }
      var response := net.Send(RequestFor(Config(), payload, headers));
      if response.TransportError? {
        return;
      }
      if response.status == 401 && token != null {
        RefreshAndResend(payload, net);
        return;
      }
      ProcessResponse(response.status, response.text);
    }

    /** The 401 branch of `_make_request`, proved against `Retried`. */
    method RefreshAndResend(payload: Payload, net: Network)
      requires Valid() && token != null
      modifies this, net, token
      ensures Valid()
      ensures completedRequests == old(completedRequests)
      ensures State(net) == Retried(Config(), old(State(net)), payload)
    {
      var refreshed := token.RefreshAccessToken(headers, net);
      if refreshed.Err? {
        return;
      }
      headers := headers["Authorization" := Bearer(token.accessToken)];
      var response := net.Send(RequestFor(Config(), payload, headers));
      if response.TransportError? {
        return;
      }
      ProcessResponse(response.status, response.text);
    }

    /** `_process_response`: save the body if asked, and append it to every condition it matches. */
    method ProcessResponse(status: int, content: string)
      requires Valid()
      modifies this
      ensures Valid()
      ensures results == if saveOutput then old(results) + [content] else old(results)
      ensures conditionResults == RecordAll(old(conditionResults), status, content)
      ensures headers == old(headers) && completedRequests == old(completedRequests)
    {
      if saveOutput {
        results := results + [content];
      }
      var i := 0;
      while i < |conditionResults|
        invariant Valid()
        invariant 0 <= i <= |conditionResults| && |conditionResults| == |old(conditionResults)|
        invariant forall k :: 0 <= k < i ==> conditionResults[k] == Record(old(conditionResults)[k], status, content)
        invariant forall k :: i <= k < |conditionResults| ==> conditionResults[k] == old(conditionResults)[k]
        invariant results == if saveOutput then old(results) + [content] else old(results)
        invariant headers == old(headers) && completedRequests == old(completedRequests)
      {
        var cr := conditionResults[i];
        var condition := cr.condition;
        var matched := true;
        if condition.statusCodes.Some? && condition.statusCodes.value != [] {
          if status !in condition.statusCodes.value {
            matched := false;
          }
        }
        if condition.messages.Some? && condition.messages.value != [] {
          if !AnyOccurs(condition.messages.value, content) {
            matched := false;
          }
        }
        if matched {
          conditionResults := conditionResults[i := cr.(results := cr.results + [content])];
        }
        i := i + 1;
      }
    }

    /** Opens `path` in the mode chosen at this moment and writes one line per body. */
    method WriteFile(fs: map<string, string>, path: string, lines: seq<string>) returns (fs': map<string, string>)
      ensures fs' == WriteLines(fs, path, appendLogs, lines)
    {
      var mode := Mode(appendLogs, path in fs);
      var prior := if mode == "a" && path in fs then fs[path] else "";
      var written := "";
      var i := 0;
      while i < |lines|
        invariant 0 <= i <= |lines|
        invariant written == Lines(lines[..i])
      {
        assert lines[..i + 1][..i] == lines[..i];
        written := written + lines[i] + "\n";
        i := i + 1;
      }
      assert lines[..i] == lines;
      fs' := fs[path := prior + written];
    }

    /** `_save_results`. */
    method SaveResults(fs: map<string, string>) returns (fs': map<string, string>)
      ensures fs' == WriteLines(fs, outputFile, appendLogs, results)
    {
      fs' := WriteFile(fs, outputFile, results);
    }

    /** `_save_condition_results`. */
    method SaveConditionResults(fs: map<string, string>) returns (fs': map<string, string>)
      ensures fs' == SaveConditions(fs, conditionResults, appendLogs)
    {
      fs' := fs;
      var i := 0;
      while i < |conditionResults|
        invariant 0 <= i <= |conditionResults|
        invariant fs' == SaveConditions(fs, conditionResults[..i], appendLogs)
      {
        assert conditionResults[..i + 1][..i] == conditionResults[..i];
        var cr := conditionResults[i];
        var outputFile := cr.condition.outputFile;
        if Truthy(outputFile) && cr.results != [] {
          fs' := WriteFile(fs', outputFile.value, cr.results);
        }
        i := i + 1;
      }
      assert conditionResults[..i] == conditionResults;
    }
  }
}
