/** `_paginate`: offset pagination over `from`/`limit`, driven through the
    request executor, with fuel standing in for the unbounded `while True`. */
module Paginator {
  import opened Results
  import opened Json
  import opened Session
  import opened Tokens
  import opened Executor

  /** When a page counts as the last one. The source compares with the
      literal 100; the correction compares with the requested `limit`. */
  datatype ShortPageRule = LiteralHundred | BelowLimit

  function Threshold(rule: ShortPageRule, limit: int): int
  {
    match rule
    case LiteralHundred => 100
    case BelowLimit => limit
  }

  /** The loop's state: items gathered, the `from` offset, `items_requested`. */
  datatype Cursor = Cursor(items: seq<Json>, from: int, requested: int)

  /** What one page does to the loop. */
  datatype Step = Next(cursor: Cursor) | Stop(cursor: Cursor) | Fail(error: Error)

  /** What `list.extend` takes from a string: its characters, each a
      one-character string. */
  function Chars(text: string): (r: seq<Json>)
    ensures |r| == |text|
  {
    if |text| == 0 then [] else [JStr([text[0]])] + Chars(text[1..])
  }

  /** `content["data"]` as the loop uses it: what `items.extend` adds and
      `len` measures. A list gives its elements and a string its
      characters. Absent content, an object without `data`, and a `data`
      that is a number, boolean, null or object raise. */
  function DataOf(content: Option<Json>): (r: Result<seq<Json>>)
    ensures r.Ok? <==> && content.Some? && Field(content.value, "data").Some?
                       && (Field(content.value, "data").value.JArray? || Field(content.value, "data").value.JStr?)
    ensures r.Ok? && content.value.fields["data"].JArray? ==> r.value == content.value.fields["data"].items
    ensures r.Ok? && content.value.fields["data"].JStr? ==> r.value == Chars(content.value.fields["data"].s)
  {
    match content
    case Some(JObject(fields)) =>
      if "data" !in fields then Err(PageWithoutData)
      else
        (match fields["data"]
         case JArray(items) => Ok(items)
         case JStr(text) => Ok(Chars(text))
         case _ => Err(DataNotList))
    case _ => Err(PageWithoutData)
  }

  /** One pass of the loop body after the request returned. */
  function PageStep(cur: Cursor, limit: int, rule: ShortPageRule, resultsLimit: Option<int>,
                    status: int, content: Option<Json>): Step
  {
    if status == 204 || 400 <= status < 600 then Stop(cur)
    else
      match DataOf(content)
      case Err(e) => Fail(e)
      case Ok(data) =>
        var items := if status == 200 then cur.items + data else cur.items;
        if |data| < Threshold(rule, limit) then Stop(cur.(items := items))
        else
          var next := Cursor(items, cur.from + limit, cur.requested + limit);
          if resultsLimit.Some? && next.requested >= resultsLimit.value then Stop(next) else Next(next)
  }

  /** The page decision: 204 and 400-599 end the loop and add nothing; a
      page whose data is neither a list nor a string raises; a 200 page adds its data; a page at
      or above the threshold advances `from` and `items_requested` by
      `limit`; the loop goes on exactly when that page was full and the
      results limit, if any, is not reached. */
  lemma PageStepDecides(cur: Cursor, limit: int, rule: ShortPageRule, resultsLimit: Option<int>,
                        status: int, content: Option<Json>)
    ensures var r := PageStep(cur, limit, rule, resultsLimit, status, content);
      && (r.Fail? <==> status != 204 && !(400 <= status < 600) && DataOf(content).Err?)
      && (r.Next? <==>
            && status != 204 && !(400 <= status < 600)
            && DataOf(content).Ok? && |DataOf(content).value| >= Threshold(rule, limit)
            && !(resultsLimit.Some? && cur.requested + limit >= resultsLimit.value))
      && (r.Next? || r.Stop? ==>
            r.cursor.items == cur.items + (if status == 200 then DataOf(content).value else []))
      && (r.Next? || r.Stop? ==>
            var full := DataOf(content).Ok? && |DataOf(content).value| >= Threshold(rule, limit)
                        && status != 204 && !(400 <= status < 600);
            && r.cursor.from == cur.from + (if full then limit else 0)
            && r.cursor.requested == cur.requested + (if full then limit else 0))
  {
  }

  /** The world a pagination runs against: the clock and the identity
      provider at the k-th request, and the server's reply for each offset. */
  datatype World = World(clock: nat -> int, tokenEndpoint: nat -> TokenRequest -> Body, server: int -> Reply)

  /** Normal return with items and the caller's query; an exception with
      the query as it stood; or the fuel ran out first. */
  datatype Outcome =
    | Done(items: seq<Json>, query: Query, client: Client)
    | Failed(error: Error, query: Query, client: Client)
    | OutOfFuel(client: Client)

  function CursorQuery(from: int, limit: int, others: map<string, string>): Query
  {
    Query(Some(from), Some(limit), others)
  }

  function PageUrl(endpoint: string, from: int, limit: int, others: map<string, string>): Url
  {
    Url(endpoint, Some(CursorQuery(from, limit, others)))
  }

  function ContentOf(res: CallResult): Option<Json>
  {
    if res.GetResult? then res.content else None
  }

  /** One turn of the loop: the page request, then the page decision; an
      exception from the request is a failed step. */
  datatype Turned = Turned(step: Step, client: Client)

  function Turn(c: Client, w: World, endpoint: string, limit: int, others: map<string, string>,
                rule: ShortPageRule, resultsLimit: Option<int>, cur: Cursor, k: nat): Turned
  {
    var env := Env(w.clock(k), w.tokenEndpoint(k), w.server(cur.from));
    var call := BaseApiCall(c, env, "GET", PageUrl(endpoint, cur.from, limit, others), JObject(map[]));
    match call.result
    case Err(e) => Turned(Fail(e), call.client)
    case Ok(res) => Turned(PageStep(cur, limit, rule, resultsLimit, res.status, ContentOf(res)), call.client)
  }

  /** The `while True` loop, for at most `fuel` turns; `turn` performs one. */
  function Drive(turn: (Client, Cursor, nat) -> Turned, c: Client, limit: int, others: map<string, string>,
                 cur: Cursor, k: nat, fuel: nat): Outcome
    decreases fuel
  {
    if fuel == 0 then OutOfFuel(c)
    else
      var t := turn(c, cur, k);
      match t.step
      case Fail(e) => Failed(e, CursorQuery(cur.from, limit, others), t.client)
      case Stop(next) => Done(next.items, CursorQuery(0, limit, others), t.client)
      case Next(next) => Drive(turn, t.client, limit, others, next, k + 1, fuel - 1)
  }

  /** `query.setdefault('from', 0)` and `query.setdefault('limit', 100)`. */
  function FromOf(q: Query): int
  {
    match q.from
    case Some(f) => f
    case None => 0
  }

  function LimitOf(q: Query): int
  {
    match q.limit
    case Some(l) => l
    case None => 100
  }

  function TurnOf(w: World, endpoint: string, q: Query, rule: ShortPageRule,
                  resultsLimit: Option<int>): (Client, Cursor, nat) -> Turned
  {
    (c: Client, cur: Cursor, k: nat) => Turn(c, w, endpoint, LimitOf(q), q.others, rule, resultsLimit, cur, k)
  }

  function Start(c: Client, w: World, endpoint: string, q: Query, rule: ShortPageRule,
                 resultsLimit: Option<int>, fuel: nat): Outcome
  {
    Drive(TurnOf(w, endpoint, q, rule, resultsLimit), c, LimitOf(q), q.others, Cursor([], FromOf(q), 0), 0, fuel)
  }

  /** `_paginate` as written: a page shorter than 100 items is the last. */
  function Paginate(c: Client, w: World, endpoint: string, q: Query, resultsLimit: Option<int>, fuel: nat): Outcome
  {
    Start(c, w, endpoint, q, LiteralHundred, resultsLimit, fuel)
  }

  /** `_paginate` with a page shorter than the requested `limit` as the last. */
  function PaginateCorrected(c: Client, w: World, endpoint: string, q: Query, resultsLimit: Option<int>,
                             fuel: nat): Outcome
  {
    Start(c, w, endpoint, q, BelowLimit, resultsLimit, fuel)
  }

  /** The items a 200 reply contributes: its data, or nothing. */
  function PageData(reply: Reply): seq<Json>
  {
    if reply.status == 200 && reply.body.Parsed? && DataOf(Some(reply.body.value)).Ok?
    then DataOf(Some(reply.body.value)).value
    else []
  }

  /** A status that ends the loop whatever the body. */
  predicate EndStatus(status: int)
  {
    status == 204 || 400 <= status < 600
  }

  /** The data of the `n` pages at `from`, `from + limit`, ..., in order. */
  function Collected(server: int -> Reply, from: int, limit: int, n: nat): seq<Json>
    decreases n
  {
    if n == 0 then [] else PageData(server(from)) + Collected(server, from + limit, limit, n - 1)
  }

  /** The URLs of `n` consecutive pages starting at `from`. */
  function PageUrls(endpoint: string, from: int, limit: int, others: map<string, string>, n: nat): seq<Url>
    decreases n
  {
    if n == 0 then []
    else [PageUrl(endpoint, from, limit, others)] + PageUrls(endpoint, from + limit, limit, others, n - 1)
  }

  /** The URL each log entry records, in order. */
  function UrlsOf(logs: seq<LogEntry>): (urls: seq<Url>)
    ensures |urls| == |logs|
  {
    if |logs| == 0 then [] else [logs[0].url] + UrlsOf(logs[1..])
  }

  /** The i-th of those pages is at offset `from + i * limit`. */
  lemma {:induction false} PageUrlsAreOffsets(endpoint: string, from: int, limit: int,
                                              others: map<string, string>, n: nat)
    ensures |PageUrls(endpoint, from, limit, others, n)| == n
    ensures forall i :: 0 <= i < n ==>
              PageUrls(endpoint, from, limit, others, n)[i] == PageUrl(endpoint, from + i * limit, limit, others)
    decreases n
  {
    if n > 0 {
      PageUrlsAreOffsets(endpoint, from + limit, limit, others, n - 1);
      var urls := PageUrls(endpoint, from, limit, others, n);
      forall i | 1 <= i < n
        ensures urls[i] == PageUrl(endpoint, from + i * limit, limit, others)
      {
        assert (from + limit) + (i - 1) * limit == from + i * limit;
      }
    }
  }

  /** What one turn `t`, taken by client `c` at cursor `cur`, does to the
      log: at most one entry, for the page's URL, and exactly one unless it
      raised. */
  predicate TurnLogs(c: Client, cur: Cursor, t: Turned, endpoint: string, limit: int, others: map<string, string>)
  {
    && |c.logs| <= |t.client.logs| <= |c.logs| + 1
    && t.client.logs[..|c.logs|] == c.logs
    && (|t.client.logs| == |c.logs| + 1 ==> t.client.logs[|c.logs|].url == PageUrl(endpoint, cur.from, limit, others))
    && (t.step.Next? || t.step.Stop? ==> |t.client.logs| == |c.logs| + 1)
  }

  /** What it does to the items and the offset. */
  predicate TurnItems(cur: Cursor, t: Turned, server: int -> Reply, limit: int)
  {
    && (t.step.Next? || t.step.Stop? ==> t.step.cursor.items == cur.items + PageData(server(cur.from)))
    && (t.step.Next? ==> t.step.cursor.from == cur.from + limit)
  }

  /** When it goes on and when it stops. */
  predicate TurnBounds(cur: Cursor, t: Turned, server: int -> Reply, limit: int, threshold: int,
                       resultsLimit: Option<int>)
  {
    && (t.step.Next? ==>
          && |PageData(server(cur.from))| >= threshold
          && t.step.cursor.from == cur.from + limit
          && t.step.cursor.requested == cur.requested + limit
          && !(resultsLimit.Some? && t.step.cursor.requested >= resultsLimit.value))
    && (t.step.Stop? ==>
          || EndStatus(server(cur.from).status)
          || |PageData(server(cur.from))| < threshold
          || (resultsLimit.Some? && cur.requested + limit >= resultsLimit.value))
  }

  ghost predicate LogsFaithful(turn: (Client, Cursor, nat) -> Turned, endpoint: string, limit: int,
                               others: map<string, string>)
  {
    forall c: Client, cur: Cursor, k: nat {:trigger TurnLogs(c, cur, turn(c, cur, k), endpoint, limit, others)} ::
      TurnLogs(c, cur, turn(c, cur, k), endpoint, limit, others)
  }

  ghost predicate ItemsFaithful(turn: (Client, Cursor, nat) -> Turned, server: int -> Reply, limit: int)
  {
    forall c: Client, cur: Cursor, k: nat {:trigger TurnItems(cur, turn(c, cur, k), server, limit)} ::
      TurnItems(cur, turn(c, cur, k), server, limit)
  }

  ghost predicate BoundsFaithful(turn: (Client, Cursor, nat) -> Turned, server: int -> Reply, limit: int,
                                 threshold: int, resultsLimit: Option<int>)
  {
    forall c: Client, cur: Cursor, k: nat
      {:trigger TurnBounds(cur, turn(c, cur, k), server, limit, threshold, resultsLimit)} ::
      TurnBounds(cur, turn(c, cur, k), server, limit, threshold, resultsLimit)
  }

  ghost predicate SyncFaithful(turn: (Client, Cursor, nat) -> Turned)
  {
    forall c: Client, cur: Cursor, k: nat :: Synced(c) ==> Synced(turn(c, cur, k).client)
  }

  /** A page turn through the executor: it appends the entry for its offset,
      keeps exactly the page's data, advances by `limit` only after a full
      page, stops only for an end status, a short page or the results limit,
      and keeps the client synchronised. */
  lemma TurnFacts(c: Client, w: World, endpoint: string, limit: int, others: map<string, string>,
                  rule: ShortPageRule, resultsLimit: Option<int>, cur: Cursor, k: nat)
    ensures var t := Turn(c, w, endpoint, limit, others, rule, resultsLimit, cur, k);
      && TurnLogs(c, cur, t, endpoint, limit, others)
      && TurnItems(cur, t, w.server, limit)
      && TurnBounds(cur, t, w.server, limit, Threshold(rule, limit), resultsLimit)
      && (Synced(c) ==> Synced(t.client))
  {
    var env := Env(w.clock(k), w.tokenEndpoint(k), w.server(cur.from));
    var url := PageUrl(endpoint, cur.from, limit, others);
    GetReturnsAndLogs(c, env, url, JObject(map[]));
    if Synced(c) {
      CallKeepsSynced(c, env, "GET", url, JObject(map[]));
    }
    var call := BaseApiCall(c, env, "GET", url, JObject(map[]));
    if call.result.Ok? {
      var res := call.result.value;
      PageStepDecides(cur, limit, rule, resultsLimit, res.status, ContentOf(res));
    }
  }

  /** The loop's turn, for a given world, endpoint, query and rule, keeps
      each of those facts at every client, cursor and request index. */
  lemma TurnOfLogs(w: World, endpoint: string, q: Query, rule: ShortPageRule, resultsLimit: Option<int>)
    ensures LogsFaithful(TurnOf(w, endpoint, q, rule, resultsLimit), endpoint, LimitOf(q), q.others)
  {
    forall c: Client, cur: Cursor, k: nat {
      TurnFacts(c, w, endpoint, LimitOf(q), q.others, rule, resultsLimit, cur, k);
    }
  }

  lemma TurnOfItems(w: World, endpoint: string, q: Query, rule: ShortPageRule, resultsLimit: Option<int>)
    ensures ItemsFaithful(TurnOf(w, endpoint, q, rule, resultsLimit), w.server, LimitOf(q))
  {
    forall c: Client, cur: Cursor, k: nat {
      TurnFacts(c, w, endpoint, LimitOf(q), q.others, rule, resultsLimit, cur, k);
    }
  }

  lemma TurnOfBounds(w: World, endpoint: string, q: Query, rule: ShortPageRule, resultsLimit: Option<int>)
    ensures BoundsFaithful(TurnOf(w, endpoint, q, rule, resultsLimit), w.server, LimitOf(q),
                           Threshold(rule, LimitOf(q)), resultsLimit)
  {
    forall c: Client, cur: Cursor, k: nat {
      TurnFacts(c, w, endpoint, LimitOf(q), q.others, rule, resultsLimit, cur, k);
    }
  }

  lemma TurnOfSync(w: World, endpoint: string, q: Query, rule: ShortPageRule, resultsLimit: Option<int>)
    ensures SyncFaithful(TurnOf(w, endpoint, q, rule, resultsLimit))
  {
    forall c: Client, cur: Cursor, k: nat {
      TurnFacts(c, w, endpoint, LimitOf(q), q.others, rule, resultsLimit, cur, k);
    }
  }

  /** Each of the first `m` pages from `from` held at least `threshold` items. */
  predicate FullRun(server: int -> Reply, from: int, limit: int, threshold: int, m: nat)
    decreases m
  {
    m == 0 || (|PageData(server(from))| >= threshold && FullRun(server, from + limit, limit, threshold, m - 1))
  }

  /** The offset `i` pages of `limit` after `from`. */
  function Offset(from: int, limit: int, i: nat): int
    decreases i
  {
    if i == 0 then from else Offset(from + limit, limit, i - 1)
  }

  /** That offset is `from + i * limit`. */
  lemma {:induction false} OffsetIsLinear(from: int, limit: int, i: nat)
    ensures Offset(from, limit, i) == from + i * limit
    decreases i
  {
    if i > 0 {
      OffsetIsLinear(from + limit, limit, i - 1);
      assert (from + limit) + (i - 1) * limit == from + i * limit;
    }
  }

  /** Why the page at `from` ended the loop. */
  predicate EndsLoop(server: int -> Reply, from: int, requested: int, limit: int, threshold: int,
                     resultsLimit: Option<int>)
  {
    || EndStatus(server(from).status)
    || |PageData(server(from))| < threshold
    || (resultsLimit.Some? && requested >= resultsLimit.value)
  }

  /** A normal return resets `from` and keeps `limit` and the other keys,
      and the log grew, append-only, by at least the last page's entry. */
  lemma {:induction false} DriveDoneLog(turn: (Client, Cursor, nat) -> Turned, endpoint: string, c: Client,
                                        limit: int, others: map<string, string>, cur: Cursor, k: nat, fuel: nat)
    requires LogsFaithful(turn, endpoint, limit, others)
    ensures var o := Drive(turn, c, limit, others, cur, k, fuel);
      o.Done? ==>
        && o.query == CursorQuery(0, limit, others)
        && |c.logs| < |o.client.logs|
        && o.client.logs[..|c.logs|] == c.logs
    decreases fuel
  {
    var o := Drive(turn, c, limit, others, cur, k, fuel);
    if fuel > 0 && o.Done? {
      var t := turn(c, cur, k);
      assert TurnLogs(c, cur, t, endpoint, limit, others);
      if t.step.Next? {
        DriveDoneLog(turn, endpoint, t.client, limit, others, t.step.cursor, k + 1, fuel - 1);
        assert o.client.logs[..|c.logs|] == o.client.logs[..|t.client.logs|][..|c.logs|];
      }
    }
  }

  /** A normal return holds the data of the 200 pages requested, in page
      order, after the items already held. */
  lemma {:induction false} DriveDoneCollects(turn: (Client, Cursor, nat) -> Turned, server: int -> Reply,
                                             endpoint: string, c: Client, limit: int, others: map<string, string>,
                                             cur: Cursor, k: nat, fuel: nat)
    requires LogsFaithful(turn, endpoint, limit, others)
    requires ItemsFaithful(turn, server, limit)
    ensures var o := Drive(turn, c, limit, others, cur, k, fuel);
      o.Done? ==>
        && |c.logs| < |o.client.logs|
        && o.items == cur.items + Collected(server, cur.from, limit, |o.client.logs| - |c.logs|)
    decreases fuel
  {
    var o := Drive(turn, c, limit, others, cur, k, fuel);
    if fuel > 0 && o.Done? {
      var t := turn(c, cur, k);
      assert TurnLogs(c, cur, t, endpoint, limit, others);
      assert TurnItems(cur, t, server, limit);
      if t.step.Stop? {
        assert |o.client.logs| - |c.logs| == 1;
        CollectedOne(server, cur.from, limit);
      } else {
        var next := t.step.cursor;
        DriveDoneCollects(turn, server, endpoint, t.client, limit, others, next, k + 1, fuel - 1);
        var n := |o.client.logs| - |c.logs|;
        assert n - 1 == |o.client.logs| - |t.client.logs|;
        Regroup(cur.items, PageData(server(cur.from)), Collected(server, next.from, limit, n - 1),
                Collected(server, cur.from, limit, n));
      }
    }
  }

  /** One page collects that page's data. */
  lemma CollectedOne(server: int -> Reply, from: int, limit: int)
    ensures Collected(server, from, limit, 1) == PageData(server(from))
  {
    assert Collected(server, from, limit, 1) == PageData(server(from)) + [];
  }

  /** Items gathered so far, then a page, then the rest, are the items
      followed by everything collected from that page on. */
  lemma Regroup(items: seq<Json>, page: seq<Json>, rest: seq<Json>, whole: seq<Json>)
    requires whole == page + rest
    ensures (items + page) + rest == items + whole
  {
  }

  /** A normal return requested the pages at `from`, `from + limit`, ...,
      one log entry each, in that order. */
  lemma {:induction false} DriveDoneRequests(turn: (Client, Cursor, nat) -> Turned, server: int -> Reply,
                                             endpoint: string, c: Client, limit: int, others: map<string, string>,
                                             cur: Cursor, k: nat, fuel: nat)
    requires LogsFaithful(turn, endpoint, limit, others)
    requires ItemsFaithful(turn, server, limit)
    ensures var o := Drive(turn, c, limit, others, cur, k, fuel);
      o.Done? ==>
        && |c.logs| < |o.client.logs|
        && UrlsOf(o.client.logs[|c.logs|..]) == PageUrls(endpoint, cur.from, limit, others, |o.client.logs| - |c.logs|)
    decreases fuel
  {
    var o := Drive(turn, c, limit, others, cur, k, fuel);
    if fuel > 0 && o.Done? {
      var t := turn(c, cur, k);
      assert TurnLogs(c, cur, t, endpoint, limit, others);
      assert TurnItems(cur, t, server, limit);
      var url := PageUrl(endpoint, cur.from, limit, others);
      if t.step.Stop? {
        assert o.client.logs[|c.logs|..] == [t.client.logs[|c.logs|]];
        assert UrlsOf([t.client.logs[|c.logs|]]) == [url];
        assert PageUrls(endpoint, cur.from, limit, others, 1) == [url];
      } else {
        var next := t.step.cursor;
        DriveDoneRequests(turn, server, endpoint, t.client, limit, others, next, k + 1, fuel - 1);
        DriveDoneLog(turn, endpoint, t.client, limit, others, next, k + 1, fuel - 1);
        var added := o.client.logs[|c.logs|..];
        var n := |added|;
        var rest := PageUrls(endpoint, next.from, limit, others, n - 1);
        assert added[0] == t.client.logs[|c.logs|];
        assert added[1..] == o.client.logs[|t.client.logs|..];
        assert UrlsOf(added[1..]) == rest;
        assert UrlsOf(added) == [url] + rest;
        assert PageUrls(endpoint, cur.from, limit, others, n) == [url] + rest;
      }
    }
  }

  /** On a normal return every page but the last was full, and the last
      ended the loop: an end status, a short page, or the results limit. */
  lemma {:induction false} DriveDoneStops(turn: (Client, Cursor, nat) -> Turned, server: int -> Reply, endpoint: string,
                                          c: Client, limit: int, others: map<string, string>, threshold: int,
                                          resultsLimit: Option<int>, cur: Cursor, k: nat, fuel: nat)
    requires LogsFaithful(turn, endpoint, limit, others)
    requires BoundsFaithful(turn, server, limit, threshold, resultsLimit)
    ensures var o := Drive(turn, c, limit, others, cur, k, fuel);
      o.Done? ==>
        && |c.logs| < |o.client.logs|
        && var n := |o.client.logs| - |c.logs|;
           && FullRun(server, cur.from, limit, threshold, n - 1)
           && EndsLoop(server, Offset(cur.from, limit, n - 1), Offset(cur.requested, limit, n),
                       limit, threshold, resultsLimit)
    decreases fuel
  {
    var o := Drive(turn, c, limit, others, cur, k, fuel);
    DriveDoneLog(turn, endpoint, c, limit, others, cur, k, fuel);
    if fuel > 0 && o.Done? {
      var t := turn(c, cur, k);
      assert TurnLogs(c, cur, t, endpoint, limit, others);
      assert TurnBounds(cur, t, server, limit, threshold, resultsLimit);
      if t.step.Next? {
        var next := t.step.cursor;
        DriveDoneStops(turn, server, endpoint, t.client, limit, others, threshold, resultsLimit, next, k + 1, fuel - 1);
        DriveDoneLog(turn, endpoint, t.client, limit, others, next, k + 1, fuel - 1);
        var n := |o.client.logs| - |c.logs|;
        assert n - 1 == |o.client.logs| - |t.client.logs|;
        assert Offset(next.from, limit, n - 2) == Offset(cur.from, limit, n - 1);
        assert Offset(next.requested, limit, n - 1) == Offset(cur.requested, limit, n);
      }
    }
  }

  /** An exception keeps `limit` and the other keys and leaves the log
      append-only; `from` is not reset. */
  lemma {:induction false} DriveFailed(turn: (Client, Cursor, nat) -> Turned, endpoint: string, c: Client,
                                       limit: int, others: map<string, string>, cur: Cursor, k: nat, fuel: nat)
    requires LogsFaithful(turn, endpoint, limit, others)
    ensures var o := Drive(turn, c, limit, others, cur, k, fuel);
      o.Failed? ==>
        && o.query.limit == Some(limit) && o.query.others == others && o.query.from.Some?
        && |c.logs| <= |o.client.logs|
        && o.client.logs[..|c.logs|] == c.logs
    decreases fuel
  {
    var o := Drive(turn, c, limit, others, cur, k, fuel);
    if fuel > 0 && o.Failed? {
      var t := turn(c, cur, k);
      assert TurnLogs(c, cur, t, endpoint, limit, others);
      if t.step.Next? {
        DriveFailed(turn, endpoint, t.client, limit, others, t.step.cursor, k + 1, fuel - 1);
        assert o.client.logs[..|c.logs|] == o.client.logs[..|t.client.logs|][..|c.logs|];
      }
    }
  }

  /** Whatever the outcome, a synchronised client stays synchronised. */
  lemma {:induction false} DriveKeepsSynced(turn: (Client, Cursor, nat) -> Turned, c: Client, limit: int,
                                            others: map<string, string>, cur: Cursor, k: nat, fuel: nat)
    requires SyncFaithful(turn)
    requires Synced(c)
    ensures Synced(Drive(turn, c, limit, others, cur, k, fuel).client)
    decreases fuel
  {
    if fuel > 0 {
      var t := turn(c, cur, k);
      assert Synced(t.client);
      if t.step.Next? {
        DriveKeepsSynced(turn, t.client, limit, others, t.step.cursor, k + 1, fuel - 1);
      }
    }
  }

  /** With a positive `limit` and a results limit `r`, `fuel` turns with
      `requested + fuel * limit >= r` are enough: the loop never runs dry. */
  lemma {:induction false} DriveBounded(turn: (Client, Cursor, nat) -> Turned, server: int -> Reply, c: Client,
                                        limit: int, others: map<string, string>, threshold: int,
                                        r: int, cur: Cursor, k: nat, fuel: nat)
    requires BoundsFaithful(turn, server, limit, threshold, Some(r))
    requires limit > 0 && fuel >= 1 && cur.requested + fuel * limit >= r
    ensures !Drive(turn, c, limit, others, cur, k, fuel).OutOfFuel?
    decreases fuel
  {
    var t := turn(c, cur, k);
    assert TurnBounds(cur, t, server, limit, threshold, Some(r));
    if t.step.Next? {
      var next := t.step.cursor;
      assert next.requested + (fuel - 1) * limit == cur.requested + fuel * limit;
      assert (fuel - 1) * limit > 0;
      DriveBounded(turn, server, t.client, limit, others, threshold, r, next, k + 1, fuel - 1);
    }
  }

  /** A turn that always goes on never returns, whatever the fuel. */
  lemma {:induction false} DriveNeverEnds(turn: (Client, Cursor, nat) -> Turned, c: Client, limit: int,
                                          others: map<string, string>, cur: Cursor, k: nat, fuel: nat)
    requires forall c': Client, cur': Cursor, k': nat :: turn(c', cur', k').step.Next?
    ensures Drive(turn, c, limit, others, cur, k, fuel).OutOfFuel?
    decreases fuel
  {
    if fuel > 0 {
      var t := turn(c, cur, k);
      DriveNeverEnds(turn, t.client, limit, others, t.step.cursor, k + 1, fuel - 1);
    }
  }

  /** The normal-return facts for a loop that starts with no items at
      `from`, with nothing requested yet. */
  lemma DriveFromStartReturns(turn: (Client, Cursor, nat) -> Turned, server: int -> Reply, endpoint: string,
                              c: Client, limit: int, others: map<string, string>, from: int, fuel: nat)
    requires LogsFaithful(turn, endpoint, limit, others)
    requires ItemsFaithful(turn, server, limit)
    ensures var o := Drive(turn, c, limit, others, Cursor([], from, 0), 0, fuel);
      o.Done? ==>
        && o.query == Query(Some(0), Some(limit), others)
        && |c.logs| < |o.client.logs|
        && o.client.logs[..|c.logs|] == c.logs
        && o.items == Collected(server, from, limit, |o.client.logs| - |c.logs|)
  {
    var cur := Cursor([], from, 0);
    DriveDoneLog(turn, endpoint, c, limit, others, cur, 0, fuel);
    DriveDoneCollects(turn, server, endpoint, c, limit, others, cur, 0, fuel);
  }

  /** The full-pages fact for a loop that starts at `from` with nothing
      requested yet. */
  lemma DriveFromStartFull(turn: (Client, Cursor, nat) -> Turned, server: int -> Reply, endpoint: string,
                           c: Client, limit: int, others: map<string, string>, threshold: int,
                           resultsLimit: Option<int>, from: int, fuel: nat)
    requires LogsFaithful(turn, endpoint, limit, others)
    requires BoundsFaithful(turn, server, limit, threshold, resultsLimit)
    ensures var o := Drive(turn, c, limit, others, Cursor([], from, 0), 0, fuel);
      o.Done? ==>
        && |c.logs| < |o.client.logs|
        && FullRun(server, from, limit, threshold, |o.client.logs| - |c.logs| - 1)
  {
    DriveDoneStops(turn, server, endpoint, c, limit, others, threshold, resultsLimit, Cursor([], from, 0), 0, fuel);
  }

  /** From a fresh cursor, the last page of a finished loop sits at offset
      `from + (n - 1) * limit` after `n` requests, and ended the loop. */
  lemma DriveFromStartEnds(turn: (Client, Cursor, nat) -> Turned, server: int -> Reply, endpoint: string,
                           c: Client, limit: int, others: map<string, string>, threshold: int,
                           resultsLimit: Option<int>, from: int, fuel: nat)
    requires LogsFaithful(turn, endpoint, limit, others)
    requires BoundsFaithful(turn, server, limit, threshold, resultsLimit)
    ensures var o := Drive(turn, c, limit, others, Cursor([], from, 0), 0, fuel);
      o.Done? ==>
        && |c.logs| < |o.client.logs|
        && var n := |o.client.logs| - |c.logs|;
           EndsLoop(server, from + (n - 1) * limit, n * limit, limit, threshold, resultsLimit)
  {
    var o := Drive(turn, c, limit, others, Cursor([], from, 0), 0, fuel);
    DriveDoneStops(turn, server, endpoint, c, limit, others, threshold, resultsLimit, Cursor([], from, 0), 0, fuel);
    if o.Done? {
      var n := |o.client.logs| - |c.logs|;
      OffsetIsLinear(from, limit, n - 1);
      OffsetIsLinear(0, limit, n);
    }
  }

  /** `_paginate` returning normally: `from` is reset to 0 while `limit`
      (default 100) and the other keys stay; the log only grew, one entry
      per page requested; the items are the data of those pages that came
      back 200, in page order. */
  lemma PaginationReturns(c: Client, w: World, endpoint: string, q: Query, rule: ShortPageRule,
                          resultsLimit: Option<int>, fuel: nat)
    ensures var o := Start(c, w, endpoint, q, rule, resultsLimit, fuel);
      o.Done? ==>
        && o.query == Query(Some(0), Some(LimitOf(q)), q.others)
        && |c.logs| < |o.client.logs|
        && o.client.logs[..|c.logs|] == c.logs
        && o.items == Collected(w.server, FromOf(q), LimitOf(q), |o.client.logs| - |c.logs|)
  {
    assert Start(c, w, endpoint, q, rule, resultsLimit, fuel) ==
           Drive(TurnOf(w, endpoint, q, rule, resultsLimit), c, LimitOf(q), q.others,
                 Cursor([], FromOf(q), 0), 0, fuel);
    TurnOfLogs(w, endpoint, q, rule, resultsLimit);
    TurnOfItems(w, endpoint, q, rule, resultsLimit);
    DriveFromStartReturns(TurnOf(w, endpoint, q, rule, resultsLimit), w.server, endpoint, c, LimitOf(q), q.others,
                          FromOf(q), fuel);
  }


  /** The requests of a normal return: the pages at `from`, `from + limit`,
      ..., one log entry each, in order (`PageUrlsAreOffsets` spells out
      the i-th). */
  lemma PaginationRequests(c: Client, w: World, endpoint: string, q: Query, rule: ShortPageRule,
                           resultsLimit: Option<int>, fuel: nat)
    ensures var o := Start(c, w, endpoint, q, rule, resultsLimit, fuel);
      o.Done? ==>
        && |c.logs| < |o.client.logs|
        && UrlsOf(o.client.logs[|c.logs|..]) ==
           PageUrls(endpoint, FromOf(q), LimitOf(q), q.others, |o.client.logs| - |c.logs|)
  {
    var o := Start(c, w, endpoint, q, rule, resultsLimit, fuel);
    assert o == Drive(TurnOf(w, endpoint, q, rule, resultsLimit), c, LimitOf(q), q.others,
                      Cursor([], FromOf(q), 0), 0, fuel);
    PagesRequested(c, w, endpoint, q, rule, resultsLimit, fuel);
    if o.Done? {
      var added := o.client.logs[|c.logs|..];
      assert UrlsOf(added) == PageUrls(endpoint, FromOf(q), LimitOf(q), q.others, |o.client.logs| - |c.logs|);
    }
  }

  /** The requests of the loop `_paginate` runs, from its first cursor. */
  lemma PagesRequested(c: Client, w: World, endpoint: string, q: Query, rule: ShortPageRule,
                       resultsLimit: Option<int>, fuel: nat)
    ensures var o := Drive(TurnOf(w, endpoint, q, rule, resultsLimit), c, LimitOf(q), q.others,
                           Cursor([], FromOf(q), 0), 0, fuel);
      o.Done? ==>
        && |c.logs| < |o.client.logs|
        && UrlsOf(o.client.logs[|c.logs|..]) ==
           PageUrls(endpoint, FromOf(q), LimitOf(q), q.others, |o.client.logs| - |c.logs|)
  {
    TurnOfLogs(w, endpoint, q, rule, resultsLimit);
    TurnOfItems(w, endpoint, q, rule, resultsLimit);
    DriveDoneRequests(TurnOf(w, endpoint, q, rule, resultsLimit), w.server, endpoint, c, LimitOf(q), q.others,
                      Cursor([], FromOf(q), 0), 0, fuel);
  }

  /** The stopping facts for the loop `_paginate` runs: full pages, then
      the page that ended it. */
  lemma PagesFull(c: Client, w: World, endpoint: string, q: Query, rule: ShortPageRule,
                  resultsLimit: Option<int>, fuel: nat)
    ensures var o := Drive(TurnOf(w, endpoint, q, rule, resultsLimit), c, LimitOf(q), q.others,
                           Cursor([], FromOf(q), 0), 0, fuel);
      o.Done? ==>
        && |c.logs| < |o.client.logs|
        && FullRun(w.server, FromOf(q), LimitOf(q), Threshold(rule, LimitOf(q)), |o.client.logs| - |c.logs| - 1)
  {
    TurnOfLogs(w, endpoint, q, rule, resultsLimit);
    TurnOfBounds(w, endpoint, q, rule, resultsLimit);
    DriveFromStartFull(TurnOf(w, endpoint, q, rule, resultsLimit), w.server, endpoint, c, LimitOf(q), q.others,
                       Threshold(rule, LimitOf(q)), resultsLimit, FromOf(q), fuel);
  }

  /** On a normal return every page but the last held at least the
      threshold: a short page always ends the loop. */
  lemma PaginationFullPages(c: Client, w: World, endpoint: string, q: Query, rule: ShortPageRule,
                            resultsLimit: Option<int>, fuel: nat)
    ensures var o := Start(c, w, endpoint, q, rule, resultsLimit, fuel);
      o.Done? ==>
        && |c.logs| < |o.client.logs|
        && FullRun(w.server, FromOf(q), LimitOf(q), Threshold(rule, LimitOf(q)), |o.client.logs| - |c.logs| - 1)
  {
    assert Start(c, w, endpoint, q, rule, resultsLimit, fuel) ==
           Drive(TurnOf(w, endpoint, q, rule, resultsLimit), c, LimitOf(q), q.others,
                 Cursor([], FromOf(q), 0), 0, fuel);
    PagesFull(c, w, endpoint, q, rule, resultsLimit, fuel);
  }

  /** `PagesFull`'s companion for the last page. */
  lemma PagesEnd(c: Client, w: World, endpoint: string, q: Query, rule: ShortPageRule,
                 resultsLimit: Option<int>, fuel: nat)
    ensures var o := Drive(TurnOf(w, endpoint, q, rule, resultsLimit), c, LimitOf(q), q.others,
                           Cursor([], FromOf(q), 0), 0, fuel);
      o.Done? ==>
        && |c.logs| < |o.client.logs|
        && var n := |o.client.logs| - |c.logs|;
           EndsLoop(w.server, FromOf(q) + (n - 1) * LimitOf(q), n * LimitOf(q), LimitOf(q),
                    Threshold(rule, LimitOf(q)), resultsLimit)
  {
    TurnOfLogs(w, endpoint, q, rule, resultsLimit);
    TurnOfBounds(w, endpoint, q, rule, resultsLimit);
    DriveFromStartEnds(TurnOf(w, endpoint, q, rule, resultsLimit), w.server, endpoint, c, LimitOf(q), q.others,
                       Threshold(rule, LimitOf(q)), resultsLimit, FromOf(q), fuel);
  }

  /** On a normal return after `n` requests, the last page, the one at
      `from + (n - 1) * limit`, ended the loop for a real reason: a 204 or
      400-599 reply, a page below the threshold, or `n * limit` items
      requested reaching the results limit. */
  lemma PaginationLastPageEnds(c: Client, w: World, endpoint: string, q: Query, rule: ShortPageRule,
                               resultsLimit: Option<int>, fuel: nat)
    ensures var o := Start(c, w, endpoint, q, rule, resultsLimit, fuel);
      o.Done? ==>
        && |c.logs| < |o.client.logs|
        && var n := |o.client.logs| - |c.logs|;
           EndsLoop(w.server, FromOf(q) + (n - 1) * LimitOf(q), n * LimitOf(q), LimitOf(q),
                    Threshold(rule, LimitOf(q)), resultsLimit)
  {
    assert Start(c, w, endpoint, q, rule, resultsLimit, fuel) ==
           Drive(TurnOf(w, endpoint, q, rule, resultsLimit), c, LimitOf(q), q.others,
                 Cursor([], FromOf(q), 0), 0, fuel);
    PagesEnd(c, w, endpoint, q, rule, resultsLimit, fuel);
  }

  /** `_paginate` raising: the caller's query keeps `limit` and the other
      keys but is left with a `from` offset set, and the log only grew. */
  lemma PaginationFails(c: Client, w: World, endpoint: string, q: Query, rule: ShortPageRule,
                        resultsLimit: Option<int>, fuel: nat)
    ensures var o := Start(c, w, endpoint, q, rule, resultsLimit, fuel);
      o.Failed? ==>
        && o.query.limit == Some(LimitOf(q)) && o.query.others == q.others && o.query.from.Some?
        && |c.logs| <= |o.client.logs|
        && o.client.logs[..|c.logs|] == c.logs
  {
    assert Start(c, w, endpoint, q, rule, resultsLimit, fuel) ==
           Drive(TurnOf(w, endpoint, q, rule, resultsLimit), c, LimitOf(q), q.others,
                 Cursor([], FromOf(q), 0), 0, fuel);
    TurnOfLogs(w, endpoint, q, rule, resultsLimit);
    DriveFailed(TurnOf(w, endpoint, q, rule, resultsLimit), endpoint, c, LimitOf(q), q.others,
                Cursor([], FromOf(q), 0), 0, fuel);
  }

  /** Paginating keeps a synchronised client synchronised, however it ends. */
  lemma PaginationKeepsSynced(c: Client, w: World, endpoint: string, q: Query, rule: ShortPageRule,
                              resultsLimit: Option<int>, fuel: nat)
    requires Synced(c)
    ensures Synced(Start(c, w, endpoint, q, rule, resultsLimit, fuel).client)
  {
    assert Start(c, w, endpoint, q, rule, resultsLimit, fuel) ==
           Drive(TurnOf(w, endpoint, q, rule, resultsLimit), c, LimitOf(q), q.others,
                 Cursor([], FromOf(q), 0), 0, fuel);
    TurnOfSync(w, endpoint, q, rule, resultsLimit);
    DriveKeepsSynced(TurnOf(w, endpoint, q, rule, resultsLimit), c, LimitOf(q), q.others,
                     Cursor([], FromOf(q), 0), 0, fuel);
  }

  /** With a positive `limit` and a results limit `r`, any bound of `n >= 1`
      turns with `n * limit >= r` is enough for the loop to end. */
  lemma PaginationTerminatesUnderResultsLimit(c: Client, w: World, endpoint: string, q: Query, rule: ShortPageRule,
                                              r: int, fuel: nat)
    requires LimitOf(q) > 0 && fuel >= 1 && fuel * LimitOf(q) >= r
    ensures !Start(c, w, endpoint, q, rule, Some(r), fuel).OutOfFuel?
  {
    assert Start(c, w, endpoint, q, rule, Some(r), fuel) ==
           Drive(TurnOf(w, endpoint, q, rule, Some(r)), c, LimitOf(q), q.others, Cursor([], FromOf(q), 0), 0, fuel);
    TurnOfBounds(w, endpoint, q, rule, Some(r));
    DriveBounded(TurnOf(w, endpoint, q, rule, Some(r)), w.server, c, LimitOf(q), q.others,
                 Threshold(rule, LimitOf(q)), r, Cursor([], FromOf(q), 0), 0, fuel);
  }

  /** A 200 reply whose body is an object with a list or string `data`. */
  predicate DataPage(reply: Reply)
  {
    reply.status == 200 && reply.body.Parsed? && DataOf(Some(reply.body.value)).Ok?
  }

  /** The identity provider grants a string token at every request. */
  ghost predicate AlwaysGrants(w: World)
  {
    forall k: nat, req: TokenRequest ::
      AccessTokenIn(w.tokenEndpoint(k)(req)).Ok? && AccessTokenIn(w.tokenEndpoint(k)(req)).value.JStr?
  }

  /** Against such a provider the token guard never raises. */
  lemma GuardPasses(c: Client, w: World, k: nat)
    requires AlwaysGrants(w)
    ensures CheckToken(c, w.clock(k), w.tokenEndpoint(k)).result.Ok?
  {
    var reply := w.tokenEndpoint(k)(TokenRequestFor(c.creds));
    assert AccessTokenIn(reply).Ok? && AccessTokenIn(reply).value.JStr?;
  }

  /** A data page read with a valid token is kept whole and logs one
      entry; a full page advances the cursor by `limit` and a short one
      leaves it; the loop goes on exactly after a full page that does not
      bring `items_requested` to the results limit. */
  lemma TurnOnDataPage(c: Client, w: World, endpoint: string, limit: int, others: map<string, string>,
                       rule: ShortPageRule, resultsLimit: Option<int>, cur: Cursor, k: nat)
    requires CheckToken(c, w.clock(k), w.tokenEndpoint(k)).result.Ok?
    requires DataPage(w.server(cur.from))
    ensures var t := Turn(c, w, endpoint, limit, others, rule, resultsLimit, cur, k);
      var full := |PageData(w.server(cur.from))| >= Threshold(rule, limit);
      && (t.step.Next? || t.step.Stop?)
      && (t.step.Next? <==> full && !(resultsLimit.Some? && cur.requested + limit >= resultsLimit.value))
      && t.step.cursor.items == cur.items + PageData(w.server(cur.from))
      && t.step.cursor.from == cur.from + (if full then limit else 0)
      && t.step.cursor.requested == cur.requested + (if full then limit else 0)
      && |t.client.logs| == |c.logs| + 1
  {
    var env := Env(w.clock(k), w.tokenEndpoint(k), w.server(cur.from));
    var url := PageUrl(endpoint, cur.from, limit, others);
    GetReturnsAndLogs(c, env, url, JObject(map[]));
    var call := BaseApiCall(c, env, "GET", url, JObject(map[]));
    assert call.result.Ok?;
    var res := call.result.value;
    PageStepDecides(cur, limit, rule, resultsLimit, res.status, ContentOf(res));
  }

  /** A page of exactly `limit` items is a full page: the corrected loop
      goes on past it, while as written the loop stops there whenever
      `limit` is below 100. */
  lemma LimitSizedPage(c: Client, w: World, endpoint: string, limit: int, others: map<string, string>,
                       cur: Cursor, k: nat)
    requires CheckToken(c, w.clock(k), w.tokenEndpoint(k)).result.Ok?
    requires DataPage(w.server(cur.from)) && |PageData(w.server(cur.from))| == limit
    ensures Turn(c, w, endpoint, limit, others, BelowLimit, None, cur, k).step.Next?
    ensures limit < 100 ==> Turn(c, w, endpoint, limit, others, LiteralHundred, None, cur, k).step.Stop?
  {
    TurnOnDataPage(c, w, endpoint, limit, others, BelowLimit, None, cur, k);
    TurnOnDataPage(c, w, endpoint, limit, others, LiteralHundred, None, cur, k);
  }

  /** Without a results limit, a server that always has a full page keeps
      the loop going for ever: no amount of fuel brings it to an end. */
  lemma PaginationNeverEndsWithoutResultsLimit(c: Client, w: World, endpoint: string, q: Query,
                                               rule: ShortPageRule, fuel: nat)
    requires AlwaysGrants(w)
    requires forall from: int :: DataPage(w.server(from)) && |PageData(w.server(from))| >= Threshold(rule, LimitOf(q))
    ensures Start(c, w, endpoint, q, rule, None, fuel).OutOfFuel?
  {
    var turn := TurnOf(w, endpoint, q, rule, None);
    forall c': Client, cur: Cursor, k: nat
      ensures turn(c', cur, k).step.Next?
    {
      GuardPasses(c', w, k);
      TurnOnDataPage(c', w, endpoint, LimitOf(q), q.others, rule, None, cur, k);
    }
    DriveNeverEnds(turn, c, LimitOf(q), q.others, Cursor([], FromOf(q), 0), 0, fuel);
  }

  /** As written, with a `limit` below 100 and a server that never sends
      more than `limit` items, no page counts as full: pagination returns
      or raises after at most one request, whatever the server holds. */
  lemma SmallLimitFetchesOnePage(c: Client, w: World, endpoint: string, q: Query,
                                 resultsLimit: Option<int>, fuel: nat)
    requires LimitOf(q) < 100
    requires forall from: int :: |PageData(w.server(from))| <= LimitOf(q)
    requires fuel >= 1
    ensures var o := Paginate(c, w, endpoint, q, resultsLimit, fuel);
      && !o.OutOfFuel?
      && |c.logs| <= |o.client.logs| <= |c.logs| + 1
  {
    var turn := TurnOf(w, endpoint, q, LiteralHundred, resultsLimit);
    var cur := Cursor([], FromOf(q), 0);
    TurnOfLogs(w, endpoint, q, LiteralHundred, resultsLimit);
    TurnOfBounds(w, endpoint, q, LiteralHundred, resultsLimit);
    var t := turn(c, cur, 0);
    assert TurnBounds(cur, t, w.server, LimitOf(q), 100, resultsLimit);
    assert TurnLogs(c, cur, t, endpoint, LimitOf(q), q.others);
  }

  /** A 200 page of `n` items. */
  function PageOf(n: nat): Reply
  {
    Reply(200, Parsed(JObject(map["data" := JArray(seq(n, _ => JNull))])))
  }

  lemma PageOfHolds(n: nat)
    ensures DataPage(PageOf(n)) && |PageData(PageOf(n))| == n
  {
  }

  /** With the default `limit` of 100, a results limit of 150 and a server
      that always has a full page, the loop stops after the second page,
      having requested 200 items and returned them all. */
  lemma ResultsLimitStopsAfterTwoPages(c: Client, w: World, endpoint: string, fuel: nat)
    requires AlwaysGrants(w)
    requires forall from: int :: w.server(from) == PageOf(100)
    requires fuel >= 2
    ensures var o := Paginate(c, w, endpoint, Query(None, None, map[]), Some(150), fuel);
      && o.Done? && |o.items| == 200 && |o.client.logs| == |c.logs| + 2
      && o.query == Query(Some(0), Some(100), map[])
  {
    var q := Query(None, None, map[]);
    var turn := TurnOf(w, endpoint, q, LiteralHundred, Some(150));
    PageOfHolds(100);
    var cur0 := Cursor([], 0, 0);
    GuardPasses(c, w, 0);
    TurnOnDataPage(c, w, endpoint, 100, map[], LiteralHundred, Some(150), cur0, 0);
    var t0 := turn(c, cur0, 0);
    assert t0.step.Next?;
    var cur1 := t0.step.cursor;
    GuardPasses(t0.client, w, 1);
    TurnOnDataPage(t0.client, w, endpoint, 100, map[], LiteralHundred, Some(150), cur1, 1);
    var t1 := turn(t0.client, cur1, 1);
    assert t1.step.Stop?;
    assert Drive(turn, t0.client, 100, map[], cur1, 1, fuel - 1) ==
           Done(t1.step.cursor.items, CursorQuery(0, 100, map[]), t1.client);
  }

  /** A ticket history of 70 entries, served in pages of at most 50. */
  function HistoryServer(from: int): Reply
  {
    if from == 0 then PageOf(50) else if from == 50 then PageOf(20) else PageOf(0)
  }

  /** As written, the history listing with `limit` 50 stops after the first
      page and returns 50 of the 70 entries. */
  lemma HistoryStopsAfterFirstPage(c: Client, w: World, endpoint: string, fuel: nat)
    requires AlwaysGrants(w) && w.server == HistoryServer && fuel >= 1
    ensures var o := Paginate(c, w, endpoint, Query(None, Some(50), map[]), None, fuel);
      o.Done? && |o.items| == 50 && |o.client.logs| == |c.logs| + 1
  {
    var q := Query(None, Some(50), map[]);
    var turn := TurnOf(w, endpoint, q, LiteralHundred, None);
    PageOfHolds(50);
    var cur0 := Cursor([], 0, 0);
    GuardPasses(c, w, 0);
    TurnOnDataPage(c, w, endpoint, 50, map[], LiteralHundred, None, cur0, 0);
    assert turn(c, cur0, 0).step.Stop?;
  }

  /** Corrected, the same listing goes on to the second page and returns
      all 70 entries. */
  lemma HistoryCorrectedReadsAll(c: Client, w: World, endpoint: string, fuel: nat)
    requires AlwaysGrants(w) && w.server == HistoryServer && fuel >= 2
    ensures var o := PaginateCorrected(c, w, endpoint, Query(None, Some(50), map[]), None, fuel);
      o.Done? && |o.items| == 70 && |o.client.logs| == |c.logs| + 2
  {
    var q := Query(None, Some(50), map[]);
    var turn := TurnOf(w, endpoint, q, BelowLimit, None);
    PageOfHolds(50);
    PageOfHolds(20);
    var cur0 := Cursor([], 0, 0);
    GuardPasses(c, w, 0);
    TurnOnDataPage(c, w, endpoint, 50, map[], BelowLimit, None, cur0, 0);
    var t0 := turn(c, cur0, 0);
    assert t0.step.Next?;
    var cur1 := t0.step.cursor;
    GuardPasses(t0.client, w, 1);
    TurnOnDataPage(t0.client, w, endpoint, 50, map[], BelowLimit, None, cur1, 1);
    var t1 := turn(t0.client, cur1, 1);
    assert t1.step.Stop?;
    assert Drive(turn, t0.client, 50, map[], cur1, 1, fuel - 1) ==
           Done(t1.step.cursor.items, CursorQuery(0, 50, map[]), t1.client);
  }
}
