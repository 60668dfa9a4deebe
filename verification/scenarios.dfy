/** Concrete runs of the request loop: the rate-limit, failure and return
    shape cases the client's behaviour is usually described by. */
module Scenarios {
  import opened Optional
  import opened Seqs
  import opened Splitting
  import opened Transport
  import opened Retry
  import opened Client

  /** Three 429s in a row: three POSTs, sleeps of 5, 10 and 15 seconds, and
      the third 429 is the reply the group ends on. */
  lemma ThreeRateLimits<R>(request: Request, script: seq<Reply<R>>)
    requires |script| >= 3
    requires forall k :: 0 <= k < 3 ==> script[k].status == StatusTooManyRequests
    ensures RetryGroup(request, script, 1) ==
      Exchange([Post(request), Sleep(5), Post(request), Sleep(10), Post(request), Sleep(15)], 3, Some(script[2]))
  {
    RetryGroupBackoff(request, script, 1);
    assert script[1..][0] == script[1];
    RetryGroupBackoff(request, script[1..], 2);
    assert script[1..][1..][0] == script[2];
  }

  /** Exhausted retries are an ordinary failure: the call returns `Null`
      with the last 429 reply. */
  lemma RateLimitedThriceIsNull<R>(c: Config, text: string, script: seq<Reply<R>>)
    requires |script| >= 3
    requires forall k :: 0 <= k < 3 ==> script[k].status == StatusTooManyRequests
    ensures Translate(c, Scalar(text), NoOverrides, script).answer == Null(script[2])
  {
    var endpoint := TranslateParams(c, NoOverrides);
    ThreeRateLimits(Request(endpoint, [text]), script);
    assert Plan(Scalar(text)) == [[text]];
    RunGroupsStop(endpoint, [[text]], script);
  }

  /** 429, 429, 200 on a string query: three POSTs of the one-string
      payload with sleeps of 5 and 10 seconds between them, and the first
      record of the 200 reply is returned. */
  lemma RateLimitedTwiceThenOk<R>(c: Config, text: string, script: seq<Reply<R>>)
    requires |script| >= 3
    requires script[0].status == StatusTooManyRequests && script[1].status == StatusTooManyRequests
    requires script[2].status == StatusOk && |script[2].records| > 0
    ensures var request := Request(TranslateParams(c, NoOverrides), [text]);
      Translate(c, Scalar(text), NoOverrides, script) ==
        CallResult([Post(request), Sleep(5), Post(request), Sleep(10), Post(request)], Single(script[2].records[0]))
  {
    var endpoint := TranslateParams(c, NoOverrides);
    var request := Request(endpoint, [text]);
    assert Plan(Scalar(text)) == [[text]];
    RetryGroupBackoff(request, script, 1);
    assert script[1..][0] == script[1];
    RetryGroupBackoff(request, script[1..], 2);
    assert script[1..][1..][0] == script[2];
    var ex := RetryGroup(request, script, 1);
    assert ex.events == [Post(request), Sleep(5), Post(request), Sleep(10), Post(request)];
    assert ex.last == Some(script[2]) && ex.used == 3;
    assert Settle(ex) == Collected(script[2].records);
    RunGroupsStep(endpoint, [[text]], script);
    assert [[text]][1..] == [];
    RunGroupsNil(endpoint, script[3..]);
    var call := RunGroups(endpoint, [[text]], script);
    assert call.events == ex.events + [];
    assert call.outcome == Collected(script[2].records + []);
  }

  /** A first reply other than 200 or 429 (a 404, say) ends the call at
      once: one POST, no sleep, and `Null` with that reply. */
  lemma NotFoundIsNull<R>(endpoint: Endpoint, q: Input<string>, script: seq<Reply<R>>)
    requires |Items(q)| > 0
    requires |script| > 0 && script[0].status == 404
    ensures Batched(endpoint, q, script) ==
      CallResult([Post(Request(endpoint, Plan(q)[0]))], Null(script[0]))
  {
    var groups := Plan(q);
    assert groups != [];
    var ex := RetryGroup(Request(endpoint, groups[0]), script, 1);
    assert ex == Exchange([Post(Request(endpoint, groups[0]))], 1, Some(script[0]));
    RunGroupsStop(endpoint, groups, script);
  }

  /** A two-string list that fits one request: one POST with both strings,
      and the records of the reply in the order the server gave them. */
  lemma TwoStringsOneRequest<R>(c: Config, a: string, b: string, first: R, second: R)
    requires |a| + |b| <= DefaultContentSize
    ensures var request := Request(TranslateParams(c, NoOverrides), [a, b]);
      Translate(c, List([a, b]), NoOverrides, [Reply(StatusOk, [first, second])]) ==
        CallResult([Post(request)], Listed([first, second]))
  {
    var q: Input<string> := List([a, b]);
    assert [a, b][1..] == [b];
    assert Flatten([a, b]) == a + b by {
      assert Flatten([b]) == b + Flatten([]);
    }
    assert Fits([a, b], DefaultContentSize);
    ChunkStart(2, DefaultSubSize, 0);
    ChunkStart(2, DefaultSubSize, 1);
    ChunksShort([a, b], DefaultSubSize);
    assert SplitList(q, DefaultSubSize) == [[a, b]];
    assert SizeGroups([[a, b]], DefaultContentSize) == [[a, b]] + SizeGroups([], DefaultContentSize);
    assert Plan(q) == [[a, b]];
    assert [[a, b]][1..] == [];
    var script := [Reply(StatusOk, [first, second])];
    var endpoint := TranslateParams(c, NoOverrides);
    var ex := RetryGroup(Request(endpoint, [a, b]), script, 1);
    assert ex == Exchange([Post(Request(endpoint, [a, b]))], 1, Some(script[0]));
    RunGroupsStep(endpoint, [[a, b]], script);
    RunGroupsNil(endpoint, script[1..]);
    var call := RunGroups(endpoint, [[a, b]], script);
    assert call.events == [Post(Request(TranslateParams(c, NoOverrides), [a, b]))] + [];
    assert call.outcome == Collected([first, second] + []);
  }

  /** A later group's failure discards what earlier groups collected: the
      call returns `Null` with that reply, not a partial list. */
  lemma LaterFailureDiscards<R>(endpoint: Endpoint, g1: seq<string>, g2: seq<string>, records: seq<R>, status: int)
    requires status != StatusOk && status != StatusTooManyRequests
    ensures var script := [Reply(StatusOk, records), Reply(status, [])];
      RunGroups(endpoint, [g1, g2], script) ==
        Call([Post(Request(endpoint, g1)), Post(Request(endpoint, g2))], 2, Rejected(Reply(status, [])))
  {
    var script := [Reply(StatusOk, records), Reply(status, [])];
    assert [g1, g2][1..] == [g2];
    assert script[1..] == [Reply(status, [])];
    RunGroupsStep(endpoint, [g1, g2], script);
    RunGroupsStop(endpoint, [g2], script[1..]);
  }
}
