/** The request loop shared by `detect` and `translate`: up to three
    attempts per size-group with a linear back-off after each 429, and a
    call that aborts at the first size-group whose final reply is not 200.

    The server is a script: the replies it will give, in the order the
    requests are issued. A request issued after the script is exhausted
    stands for `session.post` raising (a connection error or a timeout),
    which the source does not catch. */
module Retry {
  import opened Optional
  import opened Transport
  import opened Seqs

  /** `range(1, 4)`: attempts 1, 2 and 3. */
  const MaxAttempts: nat := 3
  /** `time.sleep(5 * i)` after a 429 on attempt i. */
  const BackoffStep: nat := 5

  /** The attempts for one size-group: the trace they leave, how many
      scripted replies they consumed, and the last reply (`None` when the
      last POST raised). */
  datatype Exchange<R> = Exchange(events: seq<Event>, used: nat, last: Option<Reply<R>>)

  /** True when an exchange ended on a 429, that is, on exhausted retries. */
  predicate EndedRateLimited<R>(ex: Exchange<R>)
  {
    ex.last.Some? && ex.last.value.status == StatusTooManyRequests
  }

  /** The POSTs an exchange sent: one per consumed reply, plus the one
      that raised, if any. */
  function Posts<R>(ex: Exchange<R>): nat
  {
    ex.used + if ex.last.None? then 1 else 0
  }

  /** The `for i in range(attempt, 4)` loop of one size-group. */
  function RetryGroup<R>(request: Request, script: seq<Reply<R>>, attempt: nat): (r: Exchange<R>)
    requires 1 <= attempt <= MaxAttempts
    // the replies consumed are a prefix of the script, one per answered POST;
    // the group's reply is the last one consumed
    ensures r.used <= |script|
    ensures r.last.Some? ==> 1 <= r.used && r.last.value == script[r.used - 1]
    ensures r.last.None? ==> r.used == |script|
    decreases MaxAttempts - attempt, 1
  {
    if |script| == 0 then
      Exchange([Post(request)], 0, None)
    else if script[0].status != StatusTooManyRequests then
      Exchange([Post(request)], 1, Some(script[0]))
    else if attempt == MaxAttempts then
      Exchange([Post(request), Sleep(BackoffStep * attempt)], 1, Some(script[0]))
    else
      Backoff(request, script, attempt)
  }

  /** A 429 on an attempt before the last: sleep `5 * attempt` seconds,
      then the remaining attempts on the remaining replies. */
  function Backoff<R>(request: Request, script: seq<Reply<R>>, attempt: nat): (r: Exchange<R>)
    requires 1 <= attempt < MaxAttempts && |script| > 0
    ensures r.used <= |script|
    ensures r.last.Some? ==> 1 <= r.used && r.last.value == script[r.used - 1]
    ensures r.last.None? ==> r.used == |script|
    decreases MaxAttempts - attempt, 0
  {
    var rest := RetryGroup(request, script[1..], attempt + 1);
    Exchange([Post(request), Sleep(BackoffStep * attempt)] + rest.events, 1 + rest.used, rest.last)
  }

  /** One unfolding of the loop after a 429 on an attempt before the last. */
  lemma RetryGroupBackoff<R>(request: Request, script: seq<Reply<R>>, attempt: nat)
    requires 1 <= attempt < MaxAttempts
    requires |script| > 0 && script[0].status == StatusTooManyRequests
    ensures var rest := RetryGroup(request, script[1..], attempt + 1);
      RetryGroup(request, script, attempt) ==
        Exchange([Post(request), Sleep(BackoffStep * attempt)] + rest.events, 1 + rest.used, rest.last)
  {
  }

  /** A group sends between 1 and `3 - attempt + 1` POSTs. Its trace
      holds one sleep per POST but the last, and one after the last when
      it ended on a 429, which only the last attempt can do. */
  lemma {:induction false} RetryGroupAttempts<R>(request: Request, script: seq<Reply<R>>, attempt: nat)
    requires 1 <= attempt <= MaxAttempts
    ensures var r := RetryGroup(request, script, attempt);
      && 1 <= Posts(r) <= MaxAttempts - attempt + 1
      && |r.events| == 2 * Posts(r) - (if EndedRateLimited(r) then 0 else 1)
      && (EndedRateLimited(r) ==> Posts(r) == MaxAttempts - attempt + 1)
    decreases MaxAttempts - attempt
  {
    var r := RetryGroup(request, script, attempt);
    if |script| == 0 {
      assert r == Exchange([Post(request)], 0, None);
    } else if script[0].status != StatusTooManyRequests {
      assert r == Exchange([Post(request)], 1, Some(script[0]));
    } else if attempt == MaxAttempts {
      assert r == Exchange([Post(request), Sleep(BackoffStep * attempt)], 1, Some(script[0]));
    } else {
      var rest := RetryGroup(request, script[1..], attempt + 1);
      RetryGroupAttempts(request, script[1..], attempt + 1);
      RetryGroupBackoff(request, script, attempt);
      assert r == Exchange([Post(request), Sleep(BackoffStep * attempt)] + rest.events, 1 + rest.used, rest.last);
      assert |r.events| == 2 + |rest.events|;
    }
  }

  /** Attempt k of a group's trace: its POST sends the group's request,
      and the sleep after it, if any, lasts `5 * (attempt + k)` seconds. */
  lemma {:induction false} RetryGroupEvent<R>(request: Request, script: seq<Reply<R>>, attempt: nat, k: nat)
    requires 1 <= attempt <= MaxAttempts
    ensures var events := RetryGroup(request, script, attempt).events;
      && (2 * k < |events| ==> events[2 * k] == Post(request))
      && (2 * k + 1 < |events| ==> events[2 * k + 1] == Sleep(BackoffStep * (attempt + k)))
    decreases k
  {
    var events := RetryGroup(request, script, attempt).events;
    if k > 0 && 2 * k < |events| {
      assert |script| > 0 && script[0].status == StatusTooManyRequests && attempt < MaxAttempts;
      var rest := RetryGroup(request, script[1..], attempt + 1).events;
      RetryGroupBackoff(request, script, attempt);
      assert events == [Post(request), Sleep(BackoffStep * attempt)] + rest;
      assert events[2 * k] == rest[2 * (k - 1)];
      if 2 * k + 1 < |events| {
        assert events[2 * k + 1] == rest[2 * (k - 1) + 1];
      }
      RetryGroupEvent(request, script[1..], attempt + 1, k - 1);
    }
  }

  /** A sleep, and so a retry, follows only a 429: the replies to every
      POST but the last were 429s. */
  lemma {:induction false} RetryGroupRetriesOnlyRateLimits<R>(request: Request, script: seq<Reply<R>>, attempt: nat)
    requires 1 <= attempt <= MaxAttempts
    ensures var r := RetryGroup(request, script, attempt);
      forall k :: 0 <= k < Posts(r) - 1 ==> script[k].status == StatusTooManyRequests
    decreases MaxAttempts - attempt
  {
    if |script| > 0 && script[0].status == StatusTooManyRequests && attempt < MaxAttempts {
      var r := RetryGroup(request, script, attempt);
      var rest := RetryGroup(request, script[1..], attempt + 1);
      RetryGroupBackoff(request, script, attempt);
      assert r == Exchange([Post(request), Sleep(BackoffStep * attempt)] + rest.events, 1 + rest.used, rest.last);
      assert Posts(r) == 1 + Posts(rest);
      RetryGroupRetriesOnlyRateLimits(request, script[1..], attempt + 1);
      forall k | 1 <= k < Posts(r) - 1
        ensures script[k].status == StatusTooManyRequests
      {
        assert script[k] == script[1..][k - 1];
      }
    }
  }

  /** Every POST of a group sends the group's request. */
  lemma {:induction false} RetryGroupRequests<R>(request: Request, script: seq<Reply<R>>, attempt: nat)
    requires 1 <= attempt <= MaxAttempts
    ensures var events := RetryGroup(request, script, attempt).events;
      forall i :: 0 <= i < |events| && events[i].Post? ==> events[i].request == request
    decreases MaxAttempts - attempt
  {
    var events := RetryGroup(request, script, attempt).events;
    if |script| > 0 && script[0].status == StatusTooManyRequests && attempt < MaxAttempts {
      var rest := RetryGroup(request, script[1..], attempt + 1).events;
      RetryGroupBackoff(request, script, attempt);
      assert events == [Post(request), Sleep(BackoffStep * attempt)] + rest;
      RetryGroupRequests(request, script[1..], attempt + 1);
      forall i | 2 <= i < |events| && events[i].Post?
        ensures events[i].request == request
      {
        assert events[i] == rest[i - 2];
      }
    }
  }

  /** The POSTs in a group's trace are the POSTs it sent. */
  lemma {:induction false} RetryGroupPosts<R>(request: Request, script: seq<Reply<R>>, attempt: nat)
    requires 1 <= attempt <= MaxAttempts
    ensures var r := RetryGroup(request, script, attempt);
      PostCount(r.events) == Posts(r)
    decreases MaxAttempts - attempt
  {
    var r := RetryGroup(request, script, attempt);
    if |script| == 0 || script[0].status != StatusTooManyRequests {
      assert r.events == [Post(request)];
      assert r.events[1..] == [];
    } else if attempt == MaxAttempts {
      assert r.events == [Post(request), Sleep(BackoffStep * attempt)];
      assert r.events[1..][1..] == [];
    } else {
      var rest := RetryGroup(request, script[1..], attempt + 1);
      RetryGroupBackoff(request, script, attempt);
      assert r == Exchange([Post(request), Sleep(BackoffStep * attempt)] + rest.events, 1 + rest.used, rest.last);
      RetryGroupPosts(request, script[1..], attempt + 1);
      PostCountAppend([Post(request), Sleep(BackoffStep * attempt)], rest.events);
      assert [Post(request), Sleep(BackoffStep * attempt)][1..][1..] == [];
    }
  }

  /** What a whole batched call comes to before its return shape is chosen:
      the records of every size-group in order, or the non-200 reply that
      aborted it (`return Null(response)`), or the exception of a POST. */
  datatype Outcome<R> = Collected(records: seq<R>) | Rejected(reply: Reply<R>) | Raised

  /** A batched call: its trace, the scripted replies it consumed, its outcome. */
  datatype Call<R> = Call(events: seq<Event>, used: nat, outcome: Outcome<R>)

  /** The check after the attempt loop: a group whose last reply is 200
      contributes that reply's records; any other last reply aborts. */
  function Settle<R>(ex: Exchange<R>): (o: Outcome<R>)
    ensures o.Collected? <==> ex.last.Some? && ex.last.value.status == StatusOk
    ensures o.Collected? ==> o.records == ex.last.value.records
    ensures o.Rejected? <==> ex.last.Some? && ex.last.value.status != StatusOk
    ensures o.Rejected? ==> o.reply == ex.last.value
    ensures o.Raised? <==> ex.last.None?
  {
    match ex.last
    case None => Raised
    case Some(reply) => if reply.status != StatusOk then Rejected(reply) else Collected(reply.records)
  }

  /** `ll.extend(...)` after earlier groups: records of earlier groups go
      first, and a later abort discards them. */
  function After<R>(records: seq<R>, outcome: Outcome<R>): (o: Outcome<R>)
    ensures outcome.Collected? ==> o == Collected(records + outcome.records)
    ensures !outcome.Collected? ==> o == outcome
  {
    match outcome
    case Collected(later) => Collected(records + later)
    case _ => outcome
  }

  /** The body of `detect` / `translate` over the size-groups, in order. */
  function RunGroups<R>(endpoint: Endpoint, groups: seq<seq<string>>, script: seq<Reply<R>>): (r: Call<R>)
    ensures r.used <= |script|
    ensures r.outcome.Rejected? ==>
      1 <= r.used && r.outcome.reply == script[r.used - 1] && r.outcome.reply.status != StatusOk
    ensures r.outcome.Raised? ==> r.used == |script|
    decreases |groups|, 1
  {
    if |groups| == 0 then Call([], 0, Collected([])) else RunFirst(endpoint, groups, script)
  }

  /** One pass of the outer loop: the attempts for the first size-group,
      then, when it collected records, the remaining groups on the
      remaining replies. */
  function RunFirst<R>(endpoint: Endpoint, groups: seq<seq<string>>, script: seq<Reply<R>>): (r: Call<R>)
    requires |groups| > 0
    ensures r.used <= |script|
    ensures r.outcome.Rejected? ==>
      1 <= r.used && r.outcome.reply == script[r.used - 1] && r.outcome.reply.status != StatusOk
    ensures r.outcome.Raised? ==> r.used == |script|
    decreases |groups|, 0
  {
    var ex := RetryGroup(Request(endpoint, groups[0]), script, 1);
    var settled := Settle(ex);
    if !settled.Collected? then
      Call(ex.events, ex.used, settled)
    else
      var rest := RunGroups(endpoint, groups[1..], script[ex.used..]);
      Call(ex.events + rest.events, ex.used + rest.used, After(settled.records, rest.outcome))
  }

  /** Every POST of a call goes to the call's endpoint and carries one of
      its size-groups as payload. */
  lemma {:induction false} RunGroupsPosts<R>(endpoint: Endpoint, groups: seq<seq<string>>, script: seq<Reply<R>>)
    ensures var events := RunGroups(endpoint, groups, script).events;
      forall i :: 0 <= i < |events| && events[i].Post? ==>
        events[i].request.endpoint == endpoint && events[i].request.payload in groups
    decreases |groups|
  {
    var events := RunGroups(endpoint, groups, script).events;
    if |groups| > 0 {
      var request := Request(endpoint, groups[0]);
      var ex := RetryGroup(request, script, 1);
      RetryGroupRequests(request, script, 1);
      if Settle(ex).Collected? {
        var rest := RunGroups(endpoint, groups[1..], script[ex.used..]);
        RunGroupsStep(endpoint, groups, script);
        assert events == ex.events + rest.events;
        RunGroupsPosts(endpoint, groups[1..], script[ex.used..]);
        forall i | 0 <= i < |events| && events[i].Post?
          ensures events[i].request.endpoint == endpoint && events[i].request.payload in groups
        {
          if i < |ex.events| {
            assert events[i] == ex.events[i];
          } else {
            var payload := rest.events[i - |ex.events|].request.payload;
            assert events[i] == rest.events[i - |ex.events|];
            var j :| 0 <= j < |groups[1..]| && groups[1..][j] == payload;
            assert groups[j + 1] == payload;
          }
        }
      } else {
        assert events == ex.events;
      }
    }
  }

  /** A call sends at most three POSTs per group, and at least one per
      group when every group succeeds. */
  lemma {:induction false} RunGroupsPostBounds<R>(endpoint: Endpoint, groups: seq<seq<string>>, script: seq<Reply<R>>)
    ensures PostCount(RunGroups(endpoint, groups, script).events) <= MaxAttempts * |groups|
    ensures RunGroups(endpoint, groups, script).outcome.Collected? ==>
      |groups| <= PostCount(RunGroups(endpoint, groups, script).events)
    decreases |groups|
  {
    if |groups| > 0 {
      var request := Request(endpoint, groups[0]);
      var ex := RetryGroup(request, script, 1);
      RetryGroupPosts(request, script, 1);
      RetryGroupAttempts(request, script, 1);
      if Settle(ex).Collected? {
        var rest := RunGroups(endpoint, groups[1..], script[ex.used..]);
        RunGroupsPostBounds(endpoint, groups[1..], script[ex.used..]);
        PostCountAppend(ex.events, rest.events);
      }
    }
  }

  /** Once a group of `first` aborts, the groups after it are never
      requested and the call ends with that abort: nothing collected before
      it survives. */
  lemma {:induction false} RunGroupsAbort<R>(endpoint: Endpoint, first: seq<seq<string>>, second: seq<seq<string>>, script: seq<Reply<R>>)
    requires !RunGroups(endpoint, first, script).outcome.Collected?
    ensures RunGroups(endpoint, first + second, script) == RunGroups(endpoint, first, script)
    decreases |first|
  {
    var groups := first + second;
    assert groups[0] == first[0];
    assert groups[1..] == first[1..] + second;
    var ex := RetryGroup(Request(endpoint, first[0]), script, 1);
    if Settle(ex).Collected? {
      RunGroupsAbort(endpoint, first[1..], second, script[ex.used..]);
    }
  }

  /** `c1` followed by `c2` when `c1` collected records: traces and
      consumed replies add up, and records of `c2` go after those of `c1`. */
  function Then<R>(c1: Call<R>, c2: Call<R>): (c: Call<R>)
    requires c1.outcome.Collected?
    ensures c.events == c1.events + c2.events && c.used == c1.used + c2.used
    ensures c2.outcome.Collected? ==> c.outcome == Collected(c1.outcome.records + c2.outcome.records)
    ensures !c2.outcome.Collected? ==> c.outcome == c2.outcome
  {
    Call(c1.events + c2.events, c1.used + c2.used, After(c1.outcome.records, c2.outcome))
  }

  /** Sequencing calls is associative. */
  lemma ThenAssoc<R>(a: Call<R>, b: Call<R>, c: Call<R>)
    requires a.outcome.Collected? && b.outcome.Collected?
    ensures Then(a, b).outcome.Collected?
    ensures Then(a, Then(b, c)) == Then(Then(a, b), c)
  {
    AppendAssoc(a.events, b.events, c.events);
    if c.outcome.Collected? {
      AppendAssoc(a.outcome.records, b.outcome.records, c.outcome.records);
    }
  }

  /** No groups: no request, nothing collected. */
  lemma RunGroupsNil<R>(endpoint: Endpoint, script: seq<Reply<R>>)
    ensures RunGroups(endpoint, [], script) == Call([], 0, Collected([]))
  {
  }

  /** An empty successful call is a left unit of `Then`. */
  lemma ThenNil<R>(c: Call<R>)
    ensures Then(Call([], 0, Collected([])), c) == c
  {
    assert [] + c.events == c.events;
    if c.outcome.Collected? {
      assert [] + c.outcome.records == c.outcome.records;
    }
  }

  /** A call that runs `head` then `mid`, where `mid` runs `c1` then
      `rest`, runs `head` then `c1` and then `rest`. */
  lemma ThenRegroup<R>(head: Call<R>, c1: Call<R>, rest: Call<R>, mid: Call<R>)
    requires head.outcome.Collected? && c1.outcome.Collected?
    requires mid == Then(c1, rest)
    ensures Then(head, c1).outcome.Collected?
    ensures Then(head, mid) == Then(Then(head, c1), rest)
  {
    ThenAssoc(head, c1, rest);
  }

  /** One step of `RunGroups` when the first group succeeds. */
  lemma RunGroupsStep<R>(endpoint: Endpoint, groups: seq<seq<string>>, script: seq<Reply<R>>)
    requires |groups| > 0
    requires Settle(RetryGroup(Request(endpoint, groups[0]), script, 1)).Collected?
    ensures var ex := RetryGroup(Request(endpoint, groups[0]), script, 1);
      RunGroups(endpoint, groups, script) ==
        Then(Call(ex.events, ex.used, Settle(ex)), RunGroups(endpoint, groups[1..], script[ex.used..]))
  {
  }

  /** The base case of `RunGroupsConcat`: no groups before `second`. */
  lemma RunGroupsConcatNil<R>(endpoint: Endpoint, second: seq<seq<string>>, script: seq<Reply<R>>)
    ensures var c1 := RunGroups(endpoint, [], script);
      RunGroups(endpoint, [] + second, script) == Then(c1, RunGroups(endpoint, second, script[c1.used..]))
  {
    RunGroupsNil(endpoint, script);
    assert [] + second == second;
    assert script[0..] == script;
    ThenNil(RunGroups(endpoint, second, script));
  }

  /** One step of `RunGroups` when the first group does not succeed: the
      call ends with that group. */
  lemma RunGroupsStop<R>(endpoint: Endpoint, groups: seq<seq<string>>, script: seq<Reply<R>>)
    requires |groups| > 0
    requires !Settle(RetryGroup(Request(endpoint, groups[0]), script, 1)).Collected?
    ensures var ex := RetryGroup(Request(endpoint, groups[0]), script, 1);
      RunGroups(endpoint, groups, script) == Call(ex.events, ex.used, Settle(ex))
  {
  }

  /** When every group of `first` succeeds, running `first + second` runs
      `second` on the replies left over and appends its records after
      those of `first`. */
  lemma {:induction false} RunGroupsConcat<R>(endpoint: Endpoint, first: seq<seq<string>>, second: seq<seq<string>>, script: seq<Reply<R>>)
    requires RunGroups(endpoint, first, script).outcome.Collected?
    ensures var c1 := RunGroups(endpoint, first, script);
      RunGroups(endpoint, first + second, script) == Then(c1, RunGroups(endpoint, second, script[c1.used..]))
    decreases |first|
  {
    if |first| == 0 {
      assert first == [];
      RunGroupsConcatNil(endpoint, second, script);
    } else {
      var groups := first + second;
      assert groups[0] == first[0];
      assert groups[1..] == first[1..] + second;
      var ex := RetryGroup(Request(endpoint, first[0]), script, 1);
      var head := Call(ex.events, ex.used, Settle(ex));
      var tail := script[ex.used..];
      var c1 := RunGroups(endpoint, first[1..], tail);
      var full := RunGroups(endpoint, first, script);
      RunGroupsStep(endpoint, first, script);
      assert full == Then(head, c1);
      assert full.used == ex.used + c1.used;
      var rest := RunGroups(endpoint, second, tail[c1.used..]);
      assert tail[c1.used..] == script[full.used..];
      assert rest == RunGroups(endpoint, second, script[full.used..]);
      var mid := RunGroups(endpoint, first[1..] + second, tail);
      RunGroupsConcat(endpoint, first[1..], second, tail);
      assert mid == Then(c1, rest);
      RunGroupsStep(endpoint, groups, script);
      assert RunGroups(endpoint, groups, script) == Then(head, mid);
      ThenRegroup(head, c1, rest, mid);
      assert RunGroups(endpoint, groups, script) == Then(full, rest);
    }
  }
}
