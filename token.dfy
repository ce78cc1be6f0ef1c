/**
 * The token manager (pyllow/token.py): the OAuth2 refresh-token grant of
 * section 6 of RFC 6749, and the nested-key lookup that reads the new tokens
 * out of the JSON reply.
 */
module TokenManager {
  import opened Wrappers
  import opened Json
  import opened Transport

  // ---------------------------------------------------------------------
  // Reading a value at a key path
  // ---------------------------------------------------------------------

  /**
   * Reference definition: the JSON value reached from `data` by following
   * `path` key by key through nested objects, or `None` when some step is
   * not an object or lacks the key. Defined by peeling the LAST key.
   */
  ghost function Lookup(data: J, path: seq<string>): Option<J>
    decreases |path|
  {
    if path == [] then Some(data)
    else
      var key := path[|path| - 1];
      match Lookup(data, path[..|path| - 1])
      case Some(JObj(m)) => if key in m then Some(m[key]) else None
      case _ => None
  }

  /** Looking up a path that starts with `key` descends into that key first. */
  lemma {:induction false} LookupCons(data: J, key: string, rest: seq<string>)
    ensures Lookup(data, [key] + rest)
            == if data.JObj? && key in data.fields then Lookup(data.fields[key], rest) else None
    decreases |rest|
  {
    var path := [key] + rest;
    if rest != [] {
      var init := rest[..|rest| - 1];
      assert path[..|path| - 1] == [key] + init;
      LookupCons(data, key, init);
    }
  }

  /** Following `p + q` is following `p`, then `q` from where `p` ended. */
  lemma {:induction false} LookupAppend(data: J, p: seq<string>, q: seq<string>)
    ensures Lookup(data, p + q)
            == match Lookup(data, p) case Some(j) => Lookup(j, q) case None => None
    decreases |q|
  {
    if q == [] {
      assert p + q == p;
    } else {
      var init := q[..|q| - 1];
      assert (p + q)[..|p + q| - 1] == p + init;
      LookupAppend(data, p, init);
    }
  }

  /**
   * `_extract_value`: walks `path` through nested dictionaries and yields the
   * string found at its end; `None` when an intermediate value is not a
   * dictionary, a key is missing, or the final value is not a string (with an
   * empty path, `data` itself must be a string).
   */
  function ExtractValue(data: J, path: seq<string>): (r: Option<string>)
    ensures r.Some? <==> Lookup(data, path).Some? && Lookup(data, path).value.JStr?
    ensures r.Some? ==> Lookup(data, path) == Some(JStr(r.value))
    decreases |path|
  {
    if path == [] then
      if data.JStr? then Some(data.str) else None
    else
      LookupCons(data, path[0], path[1..]);
      assert [path[0]] + path[1..] == path;
      if data.JObj? && path[0] in data.fields then ExtractValue(data.fields[path[0]], path[1..])
      else None
  }

  /** The JSON object holding `leaf` under the keys of `path`, one level per key. */
  function Nest(path: seq<string>, leaf: J): J
    decreases |path|
  {
    if path == [] then leaf else JObj(map[path[0] := Nest(path[1..], leaf)])
  }

  /** Round trip: extraction along `path` from the object nested along `path` gives back the leaf string. */
  lemma {:induction false} ExtractNested(path: seq<string>, leaf: J)
    ensures ExtractValue(Nest(path, leaf), path) == if leaf.JStr? then Some(leaf.str) else None
    decreases |path|
  {
    if path != [] {
      ExtractNested(path[1..], leaf);
    }
  }

  /** Extraction fails as soon as the walk meets a non-object or a missing key, whatever follows. */
  lemma ExtractBlocked(data: J, p: seq<string>, key: string, rest: seq<string>)
    requires Lookup(data, p).Some?
    requires !(Lookup(data, p).value.JObj? && key in Lookup(data, p).value.fields)
    ensures ExtractValue(data, p + [key] + rest) == None
  {
    assert (p + [key])[..|p + [key]| - 1] == p;
    assert Lookup(data, p + [key]) == None;
    LookupAppend(data, p + [key], rest);
  }

  /** The example of a nested token reply: `{"a": {"b": "tok123"}}`. */
  lemma ExtractExample()
    ensures ExtractValue(JObj(map["a" := JObj(map["b" := JStr("tok123")])]), ["a", "b"]) == Some("tok123")
    ensures ExtractValue(JObj(map["a" := JObj(map["b" := JStr("tok123")])]), ["a", "c"]) == None
    ensures ExtractValue(JObj(map["a" := JStr("tok123")]), ["a", "b"]) == None
  {
  }

  // ---------------------------------------------------------------------
  // The refresh-token grant
  // ---------------------------------------------------------------------

  /** The fields of a Token that never change after construction. */
  datatype Credentials = Credentials(
    endpoint: string,
    clientId: string,
    clientSecret: string,
    accessTokenPath: seq<string>,
    refreshTokenPath: seq<string>)

  /** The fields a refresh updates; `access == None` is Python's `None`. */
  datatype TokenState = TokenState(access: Option<string>, refresh: string)

  /** Why a refresh raised. */
  datatype RefreshError = RefreshTransportFailed | RefreshBadStatus(status: int) | RefreshBadJson

  /** What a refresh returns, and the token fields after it. */
  datatype RefreshStep = RefreshStep(result: Result<Option<string>, RefreshError>, state: TokenState)

  /**
   * The form body of the refresh-token grant (section 6 of RFC 6749): exactly
   * the four fields of the grant, carrying the current refresh token.
   */
  function GrantPayload(refreshToken: string, clientId: string, clientSecret: string): (p: Payload)
    ensures p.Keys == {"grant_type", "refresh_token", "client_id", "client_secret"}
    ensures p["grant_type"] == JStr("refresh_token")
    ensures p["refresh_token"] == JStr(refreshToken)
    ensures p["client_id"] == JStr(clientId) && p["client_secret"] == JStr(clientSecret)
  {
    map["grant_type" := JStr("refresh_token"),
        "refresh_token" := JStr(refreshToken),
        "client_id" := JStr(clientId),
        "client_secret" := JStr(clientSecret)]
  }

  /** The request a refresh sends: a POST of the grant to the endpoint, TLS verification forced on. */
  function RefreshRequest(c: Credentials, refreshToken: string, headers: map<string, string>): (r: Request)
    ensures r.httpMethod == "POST" && r.url == c.endpoint && r.headers == headers
    ensures r.verifySsl && r.params.None?
    ensures r.data == Some(GrantPayload(refreshToken, c.clientId, c.clientSecret))
    ensures r.data.value["refresh_token"] == JStr(refreshToken)
  {
    Request("POST", c.endpoint, headers, Some(GrantPayload(refreshToken, c.clientId, c.clientSecret)), None, true)
  }

  /** The stored refresh token after a successful refresh that extracted `extracted`. */
  function NextRefreshToken(current: string, extracted: Option<string>): (r: string)
    ensures r != current ==> extracted == Some(r) && r != ""
    ensures extracted.Some? && extracted.value != "" ==> r == extracted.value
    ensures current != "" ==> r != ""
  {
    if extracted.Some? && extracted.value != "" then extracted.value else current
  }

  /**
   * `refresh_access_token`, given the outcome of its request: the token state
   * machine.
   */
  function Refreshed(c: Credentials, st: TokenState, reply: Outcome): (r: RefreshStep)
    ensures r.result.Err? ==> r.state == st
    ensures r.result.Ok? ==> r.result.value == r.state.access
    ensures r.state.refresh != st.refresh ==> r.state.refresh != ""
  {
    match reply
    case TransportError => RefreshStep(Err(RefreshTransportFailed), st)
    case Response(status, _, json) =>
      if status != 200 then RefreshStep(Err(RefreshBadStatus(status)), st)
      else if json.None? then RefreshStep(Err(RefreshBadJson), st)
      else
        var access := ExtractValue(json.value, c.accessTokenPath);
        var refresh := NextRefreshToken(st.refresh, ExtractValue(json.value, c.refreshTokenPath));
        RefreshStep(Ok(access), TokenState(access, refresh))
  }

  /**
   * A refresh succeeds exactly on a 200 reply with a JSON body. Then the
   * access token is overwritten by the extracted value, whatever it is, the
   * refresh token is replaced only by a non-empty extracted one, and the
   * value returned is the stored access token. Otherwise the state is left
   * as it was and the error says why.
   */
  lemma RefreshedSpec(c: Credentials, st: TokenState, reply: Outcome)
    ensures var step := Refreshed(c, st, reply);
            && (step.result.Ok? <==> reply.Response? && reply.status == 200 && reply.json.Some?)
            && (step.result.Err? ==> step.state == st)
            && (reply.TransportError? ==> step.result == Err(RefreshTransportFailed))
            && (reply.Response? && reply.status != 200 ==> step.result == Err(RefreshBadStatus(reply.status)))
            && (reply.Response? && reply.status == 200 && reply.json.None? ==> step.result == Err(RefreshBadJson))
            && (step.result.Ok? ==>
                  && step.state.access == ExtractValue(reply.json.value, c.accessTokenPath)
                  && step.state.refresh == NextRefreshToken(st.refresh, ExtractValue(reply.json.value, c.refreshTokenPath))
                  && step.result.value == step.state.access)
  {
  }

  /** A successful reply lacking the access token de-authenticates: the stored access token becomes `None`. */
  lemma RefreshWithoutAccessToken(c: Credentials, st: TokenState, body: string, json: J)
    requires ExtractValue(json, c.accessTokenPath) == None
    ensures Refreshed(c, st, Response(200, body, Some(json))).state.access == None
  {
  }

  class Token {
    const tokenEndpoint: string
    const clientId: string
    const clientSecret: string
    var refreshToken: string
    var accessToken: Option<string>
    const accessTokenPath: seq<string>
    const refreshTokenPath: seq<string>

    constructor (tokenEndpoint: string, clientSecret: string, refreshToken: string, clientId: string,
                 accessTokenPath: seq<string> := ["access_token"],
                 refreshTokenPath: seq<string> := ["refresh_token"])
      ensures this.tokenEndpoint == tokenEndpoint && this.clientId == clientId
      ensures this.clientSecret == clientSecret && this.refreshToken == refreshToken
      ensures this.accessTokenPath == accessTokenPath && this.refreshTokenPath == refreshTokenPath
      ensures accessToken == Some("")
    {
      this.tokenEndpoint := tokenEndpoint;
      this.clientId := clientId;
      this.clientSecret := clientSecret;
      this.refreshToken := refreshToken;
      this.accessToken := Some("");
      this.accessTokenPath := accessTokenPath;
      this.refreshTokenPath := refreshTokenPath;
    }

    function Creds(): Credentials
    {
      Credentials(tokenEndpoint, clientId, clientSecret, accessTokenPath, refreshTokenPath)
    }

    function State(): TokenState
      reads this
    {
      TokenState(accessToken, refreshToken)
    }

    /**
     * `refresh_access_token(headers)`: sends the grant built from the current
     * refresh token; on a 200 JSON reply stores the extracted access token
     * (even `None`), replaces the refresh token only by a non-empty extracted
     * one, and returns the new access token; otherwise raises, state untouched.
     */
    method RefreshAccessToken(headers: map<string, string>, net: Network)
      returns (r: Result<Option<string>, RefreshError>)
      modifies this, net
      ensures net.log == old(net.log) + [RefreshRequest(Creds(), old(refreshToken), headers)]
      ensures net.script == Tail(old(net.script))
      ensures RefreshStep(r, State()) == Refreshed(Creds(), old(State()), Head(old(net.script)))
      ensures r.Ok? ==> r.value == accessToken
      ensures r.Err? ==> accessToken == old(accessToken) && refreshToken == old(refreshToken)
    {
      var payload := GrantPayload(refreshToken, clientId, clientSecret);
      var response := net.Send(Request("POST", tokenEndpoint, headers, Some(payload), None, true));
      if response.TransportError? {
        return Err(RefreshTransportFailed);
      }
      if response.status != 200 {
        return Err(RefreshBadStatus(response.status));
      }
      if response.json.None? {
        return Err(RefreshBadJson);
      }
      var tokenData := response.json.value;
      accessToken := ExtractValue(tokenData, accessTokenPath);
      var newRefreshToken := ExtractValue(tokenData, refreshTokenPath);
      if newRefreshToken.Some? && newRefreshToken.value != "" {
        refreshToken := newRefreshToken.value;
      }
      return Ok(accessToken);
    }
  }
}
