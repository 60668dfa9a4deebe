# pygtrans `ApiKeyTranslate`: batching and retry, in Dafny

This project models the pure core of `ApiKeyTranslate.py`, the API-key
client of the Google Cloud Translation v2 REST API in pygtrans:

- `split_list`, which cuts a query into count-groups of at most 128 items
  (a non-list query becomes the single group `[[q]]`);
- `split_list_by_content_size`, which halves a count-group at `ceil(n/2)`
  until every part is a single string or joins to at most 102400
  characters;
- the loop shared by `detect` and `translate`. It sends each size-group
  up to three times, sleeping `5 * i` seconds after a 429 on attempt `i`.
  It aborts the whole call with `Null(response)` at the first group whose
  last reply is not 200. Otherwise it appends each group's records in
  order. At the end it returns `ll[0]` for a string query and `ll` for a
  list query;
- the parameter defaulting of `__init__` and `translate`.

The HTTP session is abstracted. A call receives a *script*: the replies
the server gives, in the order requests are issued. Each reply is a status
code plus the records already parsed from its body. The effects of a call
are recorded as a trace of `Post(request)` and `Sleep(seconds)` events. A
request issued after the script is exhausted stands for `session.post`
raising, which the source does not catch.

Modules, one per concern:

| file | module | contents |
|---|---|---|
| option.dfy | `Optional` | `Option`, for Python's `None` arguments |
| seqs.dfy | `Seqs` | `Flatten` (`''.join` and list concatenation) and its lemmas |
| splitting.dfy | `Splitting` | both splitters and the size-group plan of a call |
| transport.dfy | `Transport` | requests, replies, trace events, status constants |
| retry.dfy | `Retry` | the attempt loop of one group and the loop over all groups |
| client.dfy | `Client` | configuration, parameter defaulting, `detect`, `translate` |
| scenarios.dfy | `Scenarios` | concrete runs: 429s, a 404, a later failure, a two-string list |

The content limit counts characters (`len(''.join(...))`), not bytes.
An explicit `source="auto"` passed to `translate` is sent as is; only the
constructor turns `"auto"` into unset.

## Model

| member | source | states |
|---|---|---|
| Splitting.SplitList | pygtrans/src/pygtrans/ApiKeyTranslate.py:11-17 | A non-list input gives exactly `[[obj]]`. For a list, concatenating the groups gives back the input in order. Every group has between 1 and `max(sub_size, 1)` items, and every group but the last has exactly `max(sub_size, 1)`. There are no groups exactly when there are no items. |
| Splitting.AtLeastOne | pygtrans/src/pygtrans/ApiKeyTranslate.py:15-16 | A limit below 1 is treated as 1; a limit of 1 or more is kept. |
| Splitting.Chunks | pygtrans/src/pygtrans/ApiKeyTranslate.py:17 | The comprehension yields `ceil(n / size)` slices, none empty. Each holds at most `size` items, and all but the last hold exactly `size`. |
| Splitting.ChunksFlatten | pygtrans/src/pygtrans/ApiKeyTranslate.py:17 | The slices of the comprehension, concatenated, give back the list: nothing lost, duplicated or reordered. |
| Splitting.SplitByContentSize | pygtrans/src/pygtrans/ApiKeyTranslate.py:19-30 | Concatenating the groups gives back the input. Every group is one string or joins to at most `max(content_size, 1)` characters, so an oversize string is returned alone. An input that already fits is returned whole as `[input]`. There is always at least one group: an empty input comes back as `[[]]`. For non-empty input there are no more groups than items, and every group is non-empty and no longer than the input. |
| Splitting.HalvesCombine | pygtrans/src/pygtrans/ApiKeyTranslate.py:26-30 | The groups of the two halves, `extend`ed one after the other, flatten back to the whole input. Each of them still fits the limit, and there are no more of them than items. |
| Splitting.SplitByContentSizeIdempotent | pygtrans/src/pygtrans/ApiKeyTranslate.py:23-24 | Re-splitting any group the splitter returned gives back `[group]`. |
| Splitting.SizeGroups | pygtrans/src/pygtrans/ApiKeyTranslate.py:110-111 | The size-groups of all count-groups, concatenated, give the count-groups' items in order, and each size-group fits the content limit or is one string. |
| Splitting.SizeGroupsBounded | pygtrans/src/pygtrans/ApiKeyTranslate.py:80-81 | Count-groups of 1 to `n` items give size-groups of 1 to `n` items: halving never empties or lengthens a group. |
| Splitting.Plan | pygtrans/src/pygtrans/ApiKeyTranslate.py:80-81 | The payloads of one call, concatenated, are the query's items in order. Each payload has 1 to 128 items and fits 102400 characters unless it is one string. A string query is the single payload `[q]`. An empty list has no payloads. |
| Retry.RetryGroup | pygtrans/src/pygtrans/ApiKeyTranslate.py:82-88 | The attempts of one group consume a prefix of the replies, one per answered POST. The reply the group ends on is the last one consumed. The group ends without a reply only when the replies ran out, so that its last POST raised. |
| Retry.RetryGroupAttempts | pygtrans/src/pygtrans/ApiKeyTranslate.py:82-88 | A group sends between 1 and 3 POSTs. Its trace has one sleep after every POST but the last, plus one after the last exactly when that POST got a 429. Ending on a 429 happens only once all three attempts are used. |
| Retry.RetryGroupEvent | pygtrans/src/pygtrans/ApiKeyTranslate.py:82-87 | The trace alternates POST and sleep. Event `2k` is the POST of attempt `k + 1`, carrying the group's request. Event `2k + 1` is a sleep of `5 * (k + 1)` seconds. |
| Retry.RetryGroupRetriesOnlyRateLimits | pygtrans/src/pygtrans/ApiKeyTranslate.py:85-88 | The reply to every POST of a group except the last was a 429: retrying stops at the first reply with any other status. |
| Retry.RetryGroupRequests | pygtrans/src/pygtrans/ApiKeyTranslate.py:83-84 | Every retry resends the same request: each POST of a group carries the group's endpoint parameters and payload. |
| Retry.RetryGroupPosts | pygtrans/src/pygtrans/ApiKeyTranslate.py:82-84 | The POSTs in a group's trace are exactly the requests it sent: one per consumed reply, plus the one that raised, if any. |
| Retry.Settle | pygtrans/src/pygtrans/ApiKeyTranslate.py:89-91 | A group contributes its last reply's records if and only if that reply is 200. It aborts with that reply if and only if the reply has any other status. It raises if and only if its last POST raised. |
| Retry.RunGroups | pygtrans/src/pygtrans/ApiKeyTranslate.py:79-91 | A call consumes a prefix of the replies. An abort carries the last reply consumed, and its status is not 200. An exception happens only when the replies are exhausted. |
| Retry.RunGroupsPosts | pygtrans/src/pygtrans/ApiKeyTranslate.py:80-84 | Every POST of a call goes to the call's endpoint and carries one of the call's size-groups. |
| Retry.RunGroupsPostBounds | pygtrans/src/pygtrans/ApiKeyTranslate.py:80-88 | A call sends at most 3 POSTs per size-group. When it succeeds, it sends at least one per size-group. |
| Retry.RunGroupsAbort | pygtrans/src/pygtrans/ApiKeyTranslate.py:89-91 | Once a group aborts, later groups are never requested. The call's result is that abort, and every record collected earlier is dropped: a later abort or exception replaces everything collected before it. |
| Retry.RunGroupsConcat | pygtrans/src/pygtrans/ApiKeyTranslate.py:91 | When every group of a prefix succeeds, the remaining groups run on the remaining replies. Their trace follows the prefix's trace, and their records are appended after the prefix's records. |
| Client.NewClient | pygtrans/src/pygtrans/ApiKeyTranslate.py:38-54 | The constructor keeps key, target, format and model. It never stores `"auto"` as the source, and keeps any other source unchanged. |
| Client.DefaultClient | pygtrans/src/pygtrans/ApiKeyTranslate.py:38-46 | The constructor defaults are target `zh-CN`, no source, format `html` and model `nmt`. |
| Client.TranslateParams | pygtrans/src/pygtrans/ApiKeyTranslate.py:99-106 | Each of target, source, format and model is the per-call argument when one is given, otherwise the instance value. The key is always the instance key. |
| Client.Shape | pygtrans/src/pygtrans/ApiKeyTranslate.py:89-94 | A single record comes back if and only if the query is a string and records were collected, and it is the first one. A list comes back if and only if the query is a list that succeeded, and it is all records. `Null` comes back if and only if a group aborted. An index error happens if and only if a string query collected no records. |
| Client.Batched | pygtrans/src/pygtrans/ApiKeyTranslate.py:75-94 | An empty list sends nothing and returns `[]`. A string query only ever posts `[q]`. Every payload is one of the call's size-groups: it has 1 to 128 items and fits the limit unless it is one string. There are at most three POSTs per item. A single record comes back only for a string query, and a list only for a list query. `Null` carries a non-200 reply. |
| Client.Detect | pygtrans/src/pygtrans/ApiKeyTranslate.py:75-84 | Every POST of `detect` goes to the detect endpoint with the instance's key. |
| Client.Translate | pygtrans/src/pygtrans/ApiKeyTranslate.py:96-127 | Every POST of `translate` carries the resolved target, source, format and model. |
| Scenarios.ThreeRateLimits | pygtrans/src/pygtrans/ApiKeyTranslate.py:82-88 | Three 429s in a row give three POSTs with sleeps of exactly 5, 10 and 15 seconds, and the group ends on the third 429. |
| Scenarios.RateLimitedThriceIsNull | pygtrans/src/pygtrans/ApiKeyTranslate.py:116-121 | Exhausted retries are an ordinary failure: `translate` returns `Null` with the third 429 reply. |
| Scenarios.RateLimitedTwiceThenOk | pygtrans/src/pygtrans/ApiKeyTranslate.py:112-127 | 429, 429, 200 on a string query gives three POSTs of `[q]` with sleeps of 5 and 10 seconds, and returns the first record of the 200 reply. |
| Scenarios.NotFoundIsNull | pygtrans/src/pygtrans/ApiKeyTranslate.py:85-90 | A first reply of 404 gives one POST, no sleep, and `Null` with that reply. |
| Scenarios.TwoStringsOneRequest | pygtrans/src/pygtrans/ApiKeyTranslate.py:110-127 | Two strings that fit one request give one POST of both strings, and `translate` returns the two records in order. |
| Scenarios.LaterFailureDiscards | pygtrans/src/pygtrans/ApiKeyTranslate.py:89-91 | When the first of two groups succeeds and the second gets a terminal status, the groups' outcome is `Rejected` with that reply, after one POST per group. None of the first group's records survive. |

## Left out

- HTTP transport (`requests.Session`, URLs, proxies, `trust_env`, `timeout` and its `...` sentinel): replaced by the scripted replies. Network exceptions become the `TransportError` answer.
- `time.sleep`: recorded as a `Sleep(seconds)` event in the trace; no time passes.
- JSON decoding and the `DetectResponse`, `TranslateResponse`, `LanguageResponse` and `Null` classes: a reply carries its records as opaque values. `detect` reading only the first element of each detection is part of that parsing.
- `languages`: a single GET with a 200-or-`Null` check, with no batching or retry.
- `translate_jsonl`: file I/O and JSON serialisation, one `translate` call per line.
- The `_LIMIT_SIZE` class constant, which nothing reads.
- Python's runtime type test `isinstance(obj_list, list)` / `isinstance(q, str)`: reduced to the `Scalar` / `List` constructors of `Input`.
- Client.Detect and Client.Translate: their own contracts state only the endpoint parameters; everything else they promise is stated on Client.Batched, which both call.
