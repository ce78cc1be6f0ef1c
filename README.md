# pyllow request replay, modelled in Dafny

pyllow replays one HTTP request many times. A `Pyllow` object is given:

- a method, a URL and a headers dictionary;
- an optional list of payloads;
- an optional OAuth2 `Token`;
- a loop count;
- output options and a list of conditions.

`run` works in two phases:

1. It dispatches `payloads` concatenated `loops` times for POST, or `{}` once per loop for any other method. Each dispatch:
   - injects `Authorization: Bearer <access token>` when the token holds a non-empty access token;
   - sends the request;
   - on a 401 with a token, refreshes the token once and resends once;
   - hands the last response to `_process_response`.

   Any failure abandons that dispatch only. Every dispatch is counted.
2. It saves the collected bodies: all of them to `output_file` when `save_output` is set, and the matching bodies of each condition to that condition's own file. A file is opened in append mode only when `append_logs` is set and the file already exists.

The `Token` sends the refresh-token grant of section 6 of RFC 6749. On a 200 reply it reads the new tokens from the JSON body along configurable key paths. The access token is always overwritten, even with nothing. The refresh token is replaced only by a non-empty value.

Files:

- `wrappers.dfy`: `Option` and `Result`.
- `json.dfy`: the JSON values a reply can carry (`J`). A payload is `map<string, J>`.
- `transport.dfy` (module `Transport`): `make_request` as an oracle.
  - A `Network` object holds a script of outcomes fixed in advance and consumes one per request. An exhausted script means a transport failure.
  - It logs every request it is handed.
  - An outcome is a response (status, body text, and the parsed JSON or `None` when the body is not JSON) or a transport error.
- `token.dfy` (module `TokenManager`):
  - `ExtractValue` (`_extract_value`) and its reference definition `Lookup`;
  - the refresh transition `Refreshed`;
  - the class `Token`, whose `RefreshAccessToken` is proved against `Refreshed`.
- `orchestrator.dfy` (module `Orchestrator`):
  - the budget and the dispatch order (`TotalRequests`, `Schedule`);
  - the condition matcher (`Matches`, `RecordAll`);
  - one dispatch as a function of the state it touches (`Dispatch` over a `World`), and a run of them (`DispatchAll`);
  - the file writes, over a file system given as a map from path to content (`WriteLines`, `SaveConditions`);
  - the class `Pyllow`. Its methods change its fields, the shared `Token` and the `Network` in place. Each is proved against those functions.

In the model, Python's `None` for the access token is `None` of `Option<string>`. "Truthy" means present and non-empty. `str.upper()` is modelled on ASCII letters.

## Model

| member | source | states |
|---|---|---|
| Transport.Network.Send | pyllow/request.py:37-49 | the outcome is the next scripted one, or a transport error once the script is exhausted; the request is appended to the log and the script advances by one |
| TokenManager.ExtractValue | pyllow/token.py:108-115 | yields a string exactly when following the path key by key through nested objects (`Lookup`) reaches a string, and then yields that string; otherwise `None` |
| TokenManager.ExtractNested | pyllow/token.py:108-115 | round trip: extracting along `path` from a value nested along the same `path` gives back the leaf when it is a string, `None` otherwise |
| TokenManager.ExtractBlocked | pyllow/token.py:108-112 | once the walk meets a non-object or a missing key, extraction yields `None` whatever keys follow |
| TokenManager.ExtractExample | pyllow/token.py:108-115 | `{"a": {"b": "tok123"}}` gives "tok123" along `["a","b"]`, and `None` along a missing key or through a string |
| TokenManager.GrantPayload | pyllow/token.py:57-62 | the grant body has exactly the keys grant_type, refresh_token, client_id and client_secret, with "refresh_token" as grant type, the current refresh token and the client's id and secret |
| TokenManager.RefreshRequest | pyllow/token.py:64-70 | the refresh is a POST to the token endpoint with the caller's headers, the grant body as data, no query parameters and TLS verification forced on |
| TokenManager.NextRefreshToken | pyllow/token.py:76-80 | the refresh token changes only to a non-empty extracted value, always takes a non-empty extracted value, and never becomes empty |
| TokenManager.Refreshed | pyllow/token.py:63-89 | a failed refresh leaves the token state unchanged; a successful one returns exactly the new stored access token; the refresh token only ever changes to a non-empty value |
| TokenManager.RefreshedSpec | pyllow/token.py:63-89 | a refresh succeeds iff the reply is a 200 with a JSON body; on failure the state is unchanged and the error says transport, status or JSON; on success the access token is the extracted value (even `None`), the refresh token follows `NextRefreshToken`, and the return value is the new access token |
| TokenManager.RefreshWithoutAccessToken | pyllow/token.py:71-75 | a 200 reply lacking the access token sets the stored access token to `None` |
| TokenManager.Token.constructor | pyllow/token.py:35-41 | every argument is stored as given, with default paths `["access_token"]` and `["refresh_token"]`, and the access token starts as "" |
| TokenManager.Token.RefreshAccessToken | pyllow/token.py:43-89 | sends exactly one POST of the grant built from the old refresh token, with TLS verification on; the result and the new fields are those of `Refreshed` on the next outcome; a success returns the stored access token; a failure leaves both tokens unchanged |
| Orchestrator.Upper | pyllow/__init__.py:80 | `str.upper()` on ASCII: same length, each lower-case letter becomes its upper-case letter, every other character stays |
| Orchestrator.UpperIdempotent | pyllow/__init__.py:80 | upper-casing an already upper-cased method name changes nothing |
| Orchestrator.MethodNameExample | pyllow/__init__.py:130-131 | the method test is case-insensitive ("post" and "PoSt" are POST, "get" is GET, "put" is neither) and no name is both POST and GET |
| Orchestrator.TotalRequests | pyllow/__init__.py:78-82 | the budget is never negative for a non-negative loop count, is at least the loop count when there is a payload, is 0 without loops; it is exactly the payload count times the loop count for POST and the loop count for any other method |
| Orchestrator.Schedule | pyllow/__init__.py:93-106 | for a non-negative loop count the dispatch schedule has exactly `total_requests` entries; no loops means nothing is sent; for POST every entry is one of the payloads, otherwise every entry is `{}` |
| Orchestrator.ScheduleOrder | pyllow/__init__.py:93-106 | for POST, entry `i * len(payloads) + j` of the schedule is payload `j`; for other methods the schedule is `loops` copies of `{}` |
| Orchestrator.ScheduleExample | pyllow/__init__.py:93-106 | two payloads over two POST loops are dispatched p1, p2, p1, p2, against a budget of 4 |
| Orchestrator.DispatchAll | pyllow/__init__.py:93-106 | a run of dispatches only appends to the request log, never rewriting an earlier request, and a run of at least one dispatch sends something |
| Orchestrator.DispatchAllAppend | pyllow/__init__.py:93-106 | dispatching one list after another is dispatching their concatenation |
| Orchestrator.Occurs | pyllow/__init__.py:174 | Python's substring test: true iff the needle stands in the body at some position |
| Orchestrator.AnyOccurs | pyllow/__init__.py:173-175 | true iff some message of the list is a substring of the body |
| Orchestrator.Matches | pyllow/__init__.py:165-176 | a condition matches iff its status list is missing, empty or holds the status, and its message list is missing, empty or has a message standing in the body; a condition with neither list matches every response |
| Orchestrator.MatchesExample | pyllow/__init__.py:165-178 | a condition on status 200 and message "ok" takes a 200 containing "ok" and refuses a 200 without it and a 500 containing it |
| Orchestrator.Record | pyllow/__init__.py:177-178 | one entry keeps its condition; its list only grows, gains exactly one body iff the condition matches, and that body is the response text |
| Orchestrator.RecordAll | pyllow/__init__.py:165-178 | one entry per condition, each keeping its condition; an entry gains the body iff its condition matches, and no other entry changes |
| Orchestrator.RecordTwice | pyllow/__init__.py:177-178 | matches are not deduplicated: the same matching body recorded twice is kept twice |
| Orchestrator.Bearer | pyllow/__init__.py:124 | the header value is "Bearer " followed by the access token, or by "None" when there is none |
| Orchestrator.AuthHeaders | pyllow/__init__.py:123-124 | the bearer header is set exactly when there is a token holding a non-empty access token; every other header keeps its presence and value |
| Orchestrator.RequestFor | pyllow/__init__.py:126-133 | the request carries the method, URL, current headers and TLS flag; it has data iff the method is POST, and then the data is the payload; it has query parameters iff it is a GET that has `params`, and every GET carries `params`; never both data and parameters |
| Orchestrator.Process | pyllow/__init__.py:151-178 | processing a reply changes only the result lists: the body is appended to `results` iff `save_output`, and there is still one entry per condition; headers, token and network are untouched |
| Orchestrator.Challenged | pyllow/__init__.py:135 | only a 401 reply is challenged, and a 401 is challenged exactly when there is a token; a transport failure never is |
| Orchestrator.Dispatch | pyllow/__init__.py:113-149 | one dispatch sends between one and three requests, adds at most one saved body and none without `save_output`, keeps one entry per condition, and never touches the token state when there is no token |
| Orchestrator.Retried | pyllow/__init__.py:135-147 | the 401 branch sends one or two requests (the refresh and the resend), adds at most one saved body and none without `save_output`, and keeps one entry per condition |
| Orchestrator.DispatchUnchallenged | pyllow/__init__.py:122-149 | without a 401 that a token can answer, exactly one request is sent with the injected header, the headers end as `AuthHeaders` made them, the token is untouched, and the reply, if any, is processed |
| Orchestrator.DispatchChallenged | pyllow/__init__.py:135-149 | on a 401 with a token: exactly one refresh request, with the first request's headers; if it fails nothing is processed and the token is unchanged; otherwise exactly one resend, identical but for the new bearer header, which stays in the headers, and its reply is processed even if it is another 401 |
| Orchestrator.DispatchAllKeepsConditions | pyllow/__init__.py:84-87 | over any run, the condition entries keep their number, order and conditions, and each entry's list only grows |
| Orchestrator.DispatchAllRequestCount | pyllow/__init__.py:122-149 | each dispatch sends between one and three requests: at most one refresh and one retry |
| Orchestrator.DispatchAllResults | pyllow/__init__.py:160-163 | the saved bodies only grow, by at most one per dispatch, and not at all without `save_output` |
| Orchestrator.Mode | pyllow/__init__.py:191 | the open mode is "a" or "w", and "a" exactly when appending is asked for and the file exists |
| Orchestrator.Lines | pyllow/__init__.py:194-195 | the text written for a list of bodies is empty exactly when there are no bodies |
| Orchestrator.LinesAppend | pyllow/__init__.py:194-195 | the text written for two lists one after the other is the text of the first followed by the text of the second, one body per line |
| Orchestrator.WriteLines | pyllow/__init__.py:191-195 | appending to an existing file keeps its content in front of the new lines; otherwise the file holds exactly the new lines, one body per line; no other file changes |
| Orchestrator.AppendingSavesCompose | pyllow/__init__.py:191-195 | two appending saves to an existing file equal one save of both lists |
| Orchestrator.SaveConditions | pyllow/__init__.py:204-213 | saving the condition files never removes a file |
| Orchestrator.SaveConditionsWrites | pyllow/__init__.py:204-213 | an entry with a truthy output file and at least one match gets its file: unless a later writing entry names the same file, the file ends holding the entry's bodies, one per line, after its earlier content only when appending to a file that existed when opened |
| Orchestrator.SaveConditionsUntouched | pyllow/__init__.py:204-213 | a file named by no condition that has a truthy output file and a match keeps its presence and content |
| Orchestrator.Pyllow.constructor | pyllow/__init__.py:64-87 | a missing or empty payload list becomes `[{}]`; the budget is fixed by the method, payload count and loops; the counter starts at 0; one empty result entry per condition, in order; every other argument is stored |
| Orchestrator.Pyllow.Run | pyllow/__init__.py:89-111 | dispatches exactly the schedule, in order, with the state given by `DispatchAll`; counts every dispatch, so a fresh run ends with `completed_requests == total_requests` for non-negative loops; then writes the main file only under `save_output`, followed by the condition files |
| Orchestrator.Pyllow.RunLoops | pyllow/__init__.py:93-106 | the loop phase of `run` performs `DispatchAll` of the schedule and counts each entry |
| Orchestrator.Pyllow.Repeatedly | pyllow/__init__.py:93-106 | `loops` passes over the same batch (the payloads for POST, `{}` otherwise) dispatch that batch repeated, counting each dispatch |
| Orchestrator.Pyllow.MakeRequests | pyllow/__init__.py:95-100 | one pass of the loop dispatches a batch in order, counting each |
| Orchestrator.Pyllow.MakeRequest | pyllow/__init__.py:113-149 | the headers, token, network and result lists end as `Dispatch` says; exceptions are swallowed, so the call always returns |
| Orchestrator.Pyllow.RefreshAndResend | pyllow/__init__.py:135-147 | the 401 branch changes headers, token, network and result lists as `Retried` says |
| Orchestrator.Pyllow.ProcessResponse | pyllow/__init__.py:151-178 | the body is appended to `results` iff `save_output`; the condition entries become `RecordAll` of the old ones; nothing else changes |
| Orchestrator.Pyllow.WriteFile | pyllow/__init__.py:191-195 | the file system after opening the path in the mode chosen at that moment and writing one body per line is `WriteLines` |
| Orchestrator.Pyllow.SaveResults | pyllow/__init__.py:187-198 | writes all saved bodies to the output file as `WriteLines` says |
| Orchestrator.Pyllow.SaveConditionResults | pyllow/__init__.py:200-218 | writes, in condition order, each entry with a truthy output file and at least one match, each mode decided when that file is opened |

## Left out

- Time and progress: `sleep_time`/`time.sleep` and `_log_progress` (a float percentage sent to the log) have no observable state beyond the counters, which are modelled.
- Logging calls: they are a side-effect sink.
- Real HTTP and TLS: `requests.request` is the scripted `Network`. `verify_ssl` is only carried in the logged request.
- JSON parsing: a reply carries its parsed value, or `None` when `response.json()` would raise.
- JSON values: only objects and strings are distinguished; every other value (`None`, numbers, booleans, lists) is one `JOther` case. `_extract_value` treats these alike. The same `J` also carries request payloads and query parameters, so two payloads that differ only in such values (`{"x": 1}` and `{"x": 2}`) are the same value in the model, and the request log cannot tell them apart. No proved property depends on payload contents.
- File I/O failures: opening or writing a file is assumed to succeed. The `IOError` branches that only log are not modelled. `os.path.exists` is presence in the file-system map at the moment of opening.
- Exceptions: a refresh failure is a `Result` error. Within `_make_request`, every failure abandons the dispatch, as the `except Exception` does. Exceptions raised inside `_process_response` itself, e.g. by a message that is not a string, are not modelled. Messages are strings and status codes integers.
- Upper: `str.upper()` is modelled on ASCII letters only; Unicode case mapping is left out.
- Aliasing: the caller's headers dictionary and `Token` object may be shared with other code in Python. The model gives the orchestrator its own `headers` map. Other holders of the dictionary therefore do not see the injected header.
