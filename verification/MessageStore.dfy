/** The in-memory message log, its polling server and the notification example's cursor.

    Model of stateless/store.go, stateless/server.go and the fetch branch of
    example/notification/main.go.  Message IDs are unbounded (the code uses `int64`), and the clock is
    a parameter.
 */
module MessageStore {

  datatype Message = Message(id: int, timestamp: int, kind: string, topic: string, data: seq<bv8>)

  type Log = seq<Message>

  /** IDs count up from one. */
  ghost predicate Numbered(log: Log)
  {
    forall i :: 0 <= i < |log| ==> log[i].id == i + 1
  }

  function LogOf(messages: map<string, Log>, user: string): Log
  {
    if user in messages then messages[user] else []
  }

  function Append(log: Log, m: Message, now: int): Log
  {
    log + [m.(id := |log| + 1, timestamp := now)]
  }

  /** Where a fetch after `since` starts in a log of `n` messages. */
  function PageStart(n: nat, since: int): nat
  {
    if since <= 0 then 0 else if since >= n then n else since
  }

  function AtLeastOne(limit: int): nat
  {
    if limit < 1 then 1 else limit
  }

  /** The slice that a fetch returns. */
  function Page(log: Log, since: int, limit: int): Log
  {
    var lo := PageStart(|log|, since);
    var hi := lo + AtLeastOne(limit);
    if hi < |log| then log[lo..hi] else log[lo..]
  }

  class MemoryStore {
    var messages: map<string, Log>
    var lastID: map<string, int>

    ghost predicate Ok()
      reads this
    {
      && messages.Keys == lastID.Keys
      && forall u :: u in messages ==> Numbered(messages[u]) && lastID[u] == |messages[u]|
    }

    constructor ()
      ensures Ok() && messages == map[]
    {
      messages, lastID := map[], map[];
    }

    /** The scan with its early exit.  The limit is only looked at after an append,
        so a limit below one still yields one message. */
    method Fetch(user: string, since: int, limit: int) returns (result: Log)
      requires Ok()
      ensures result == Page(LogOf(messages, user), since, limit)
      ensures limit >= 1 ==> |result| <= limit
      ensures limit < 1 ==> |result| <= 1
    {
      result := [];
      if user !in messages { return; }
      var msgs := messages[user];
      var lo := PageStart(|msgs|, since);
      for i := 0 to |msgs|
        invariant result == if i <= lo then [] else msgs[lo..i]
        invariant |result| < AtLeastOne(limit)
      {
        if msgs[i].id > since {
          result := result + [msgs[i]];
          if |result| >= limit { break; }
        }
      }
    }

    method Store(user: string, m: Message, now: int)
      requires Ok()
      modifies this
      ensures Ok()
      ensures messages == old(messages)[user := Append(LogOf(old(messages), user), m, now)]
    {
      var last := if user in lastID then lastID[user] else 0;
      var msg := m.(id := last + 1, timestamp := now);
      lastID := lastID[user := msg.id];
      messages := messages[user := LogOf(messages, user) + [msg]];
    }

    method Clear(user: string)
      requires Ok()
      modifies this
      ensures Ok() && messages == old(messages) - {user}
    {
      messages := messages - {user};
      lastID := lastID - {user};
    }

    method ClearAll()
      modifies this
      ensures Ok() && messages == map[]
    {
      messages, lastID := map[], map[];
    }
  }

  /** The polling server: a non-positive limit is replaced by the batch size. */
  class Server {
    const store: MemoryStore
    const batchSize: int

    constructor (store: MemoryStore, batchSize: int)
      ensures this.store == store && this.batchSize == batchSize
    {
      this.store, this.batchSize := store, batchSize;
    }

    method Fetch(user: string, since: int, limit: int) returns (result: Log)
      requires store.Ok()
      ensures result == Page(LogOf(store.messages, user), since, if limit <= 0 then batchSize else limit)
      ensures limit >= 1 ==> |result| <= limit
      ensures limit < 1 ==> |result| <= (if batchSize < 1 then 1 else batchSize)
    {
      var l := limit;
      if l <= 0 { l := batchSize; }
      result := store.Fetch(user, since, l);
    }

    method Send(user: string, topic: string, data: seq<bv8>, now: int)
      requires store.Ok()
      modifies store
      ensures store.Ok()
      ensures store.messages == old(store.messages)[user :=
                LogOf(old(store.messages), user)
                  + [Message(|LogOf(old(store.messages), user)| + 1, now, "message", topic, data)]]
    {
      var msg := Message(0, 0, "message", topic, data);
      store.Store(user, msg, now);
    }
  }

  // ---------------------------------------------------------------- polling

  /** The cursor after a page: the ID of its last message, if it has one. */
  function Advance(cursor: int, page: Log): int
  {
    if page == [] then cursor else page[|page| - 1].id
  }

  /** What `Page` means on a numbered log: exactly the messages after the cursor, in order, up to the limit. */
  lemma PageMeaning(log: Log, since: int, limit: int)
    requires Numbered(log)
    ensures var page := Page(log, since, limit);
            && (forall m :: m in page ==> m in log && m.id > since)
            && (forall i :: 0 <= i < |page| ==> page[i].id == PageStart(|log|, since) + i + 1)
            && (forall m :: m in log && m.id > since && m !in page ==>
                  |page| == (if limit < 1 then 1 else limit) && m.id > page[|page| - 1].id)
            && |page| <= (if limit < 1 then 1 else limit)
  {
    var page, lo := Page(log, since, limit), PageStart(|log|, since);
    forall m | m in log && m.id > since && m !in page
      ensures |page| == AtLeastOne(limit) && m.id > page[|page| - 1].id
    {
      var i :| 0 <= i < |log| && log[i] == m;
      LeftOut(log, since, limit, i);
    }
  }

  lemma LeftOut(log: Log, since: int, limit: int, i: nat)
    requires Numbered(log) && i < |log| && log[i].id > since && log[i] !in Page(log, since, limit)
    ensures var page := Page(log, since, limit); |page| == AtLeastOne(limit) && log[i].id > page[|page| - 1].id
  {
    var page, lo := Page(log, since, limit), PageStart(|log|, since);
    assert page == log[lo..lo + |page|];
    assert forall j :: 0 <= j < |page| ==> page[j] == log[lo + j] && page[j] in page;
    assert i >= lo + |page|;
  }

  datatype Event =
    | Stored(user: string, m: Message, now: int)
    | Polled(poller: nat, limit: int)

  /** The logs, and each poller's cursor and the messages it has been handed. */
  datatype PollState = PollState(logs: map<string, Log>, cursor: map<nat, int>, got: map<nat, Log>)

  function CursorOf(s: PollState, p: nat): int { if p in s.cursor then s.cursor[p] else 0 }
  function GotOf(s: PollState, p: nat): Log { if p in s.got then s.got[p] else [] }

  /** `user` says whose log each poller reads. */
  function Step(s: PollState, e: Event, user: nat -> string): PollState
  {
    match e
    case Stored(u, m, now) => s.(logs := s.logs[u := Append(LogOf(s.logs, u), m, now)])
    case Polled(p, limit) =>
      var page := Page(LogOf(s.logs, user(p)), CursorOf(s, p), limit);
      s.(cursor := s.cursor[p := Advance(CursorOf(s, p), page)], got := s.got[p := GotOf(s, p) + page])
  }

  function Run(s: PollState, es: seq<Event>, user: nat -> string): PollState
  {
    if es == [] then s else Step(Run(s, es[..|es| - 1], user), es[|es| - 1], user)
  }

  /** The part of a log after position `from` up to position `to`; empty if `to` has not passed `from`. */
  function Slice(log: Log, from: nat, to: int): Log
    requires to <= |log| || to <= from
  {
    if to <= from then [] else log[from..to]
  }

  /** Poller `p`, which started at position `from` with nothing, has exactly the messages from there to its cursor. */
  ghost predicate Exact(s: PollState, p: nat, user: nat -> string, from: nat)
  {
    var log := LogOf(s.logs, user(p));
    && from <= CursorOf(s, p)
    && (CursorOf(s, p) <= |log| || CursorOf(s, p) == from)
    && GotOf(s, p) == Slice(log, from, CursorOf(s, p))
  }

  ghost predicate AllNumbered(s: PollState)
  {
    forall u :: u in s.logs ==> Numbered(s.logs[u])
  }

  lemma SliceJoins(log: Log, from: nat, cursor: nat, next: nat)
    requires from <= cursor <= next <= |log|
    ensures log[from..cursor] + log[cursor..next] == log[from..next]
  {
  }

  /** A page that is not empty starts at the cursor and ends where the cursor moves to. */
  lemma PageIsSlice(log: Log, cursor: nat, limit: int)
    requires Numbered(log) && Page(log, cursor, limit) != []
    ensures var next := Advance(cursor, Page(log, cursor, limit));
            cursor < next <= |log| && Page(log, cursor, limit) == log[cursor..next]
  {
    var page := Page(log, cursor, limit);
    assert page == log[cursor..cursor + |page|];
    assert page[|page| - 1] == log[cursor + |page| - 1];
  }

  lemma PageExtends(log: Log, cursor: nat, limit: int, from: nat)
    requires Numbered(log) && from <= cursor && (cursor <= |log| || cursor == from)
    ensures var page := Page(log, cursor, limit);
            var next := Advance(cursor, page);
            && cursor <= next && (next <= |log| || next == from)
            && Slice(log, from, cursor) + page == Slice(log, from, next)
  {
    if Page(log, cursor, limit) != [] {
      PageIsSlice(log, cursor, limit);
      SliceJoins(log, from, cursor, Advance(cursor, Page(log, cursor, limit)));
    }
  }

  lemma PollKeepsExact(s: PollState, limit: int, p: nat, user: nat -> string, from: nat)
    requires AllNumbered(s) && Exact(s, p, user, from)
    ensures Exact(Step(s, Polled(p, limit), user), p, user, from)
  {
    PageExtends(LogOf(s.logs, user(p)), CursorOf(s, p), limit, from);
  }

  lemma StepKeepsExact(s: PollState, e: Event, p: nat, user: nat -> string, from: nat)
    requires AllNumbered(s) && Exact(s, p, user, from)
    ensures AllNumbered(Step(s, e, user)) && Exact(Step(s, e, user), p, user, from)
  {
    if e.Polled? && e.poller == p { PollKeepsExact(s, e.limit, p, user, from); }
  }

  /** Exactly-once, in-order delivery, for every interleaving of stores and polls by any number of pollers:
      the pages handed to a poller, put together, are its log from where it started to its cursor. */
  lemma {:induction false} ExactlyOnce(s: PollState, es: seq<Event>, p: nat, user: nat -> string, from: nat)
    requires AllNumbered(s) && CursorOf(s, p) == from && GotOf(s, p) == []
    ensures AllNumbered(Run(s, es, user)) && Exact(Run(s, es, user), p, user, from)
    decreases |es|
  {
    if es != [] {
      ExactlyOnce(s, es[..|es| - 1], p, user, from);
      StepKeepsExact(Run(s, es[..|es| - 1], user), es[|es| - 1], p, user, from);
    }
  }

  /** From an empty store and a zero cursor, what a poller has is always a prefix of its log. */
  lemma PagesAreAPrefix(es: seq<Event>, p: nat, user: nat -> string)
    ensures var s := Run(PollState(map[], map[], map[]), es, user);
            GotOf(s, p) <= LogOf(s.logs, user(p)) && |GotOf(s, p)| == CursorOf(s, p)
  {
    ExactlyOnce(PollState(map[], map[], map[]), es, p, user, 0);
  }

  /** After a `Clear` the log restarts at one while a cursor does not: whatever happens next, a poller whose cursor
      stood at `from` never receives any of the first `from` messages stored afterwards. */
  lemma ClearHidesMessages(s: PollState, es: seq<Event>, p: nat, user: nat -> string, from: nat, m: Message)
    requires AllNumbered(s) && LogOf(s.logs, user(p)) == []
    requires CursorOf(s, p) == from && GotOf(s, p) == []
    requires m in GotOf(Run(s, es, user), p)
    ensures m.id > from
  {
    ExactlyOnce(s, es, p, user, from);
    var t := Run(s, es, user);
    var log := LogOf(t.logs, user(p));
    var i :| 0 <= i < |GotOf(t, p)| && GotOf(t, p)[i] == m;
    assert m == log[from + i];
  }

  // ---------------------------------------------------------------- draining

  /** The cursor after `k` polls of one log with a fixed limit. */
  function CursorAfter(log: Log, cursor: int, limit: int, k: nat): int
  {
    if k == 0 then cursor
    else
      var c := CursorAfter(log, cursor, limit, k - 1);
      Advance(c, Page(log, c, limit))
  }

  function Min(a: int, b: int): int { if a < b then a else b }

  lemma OnePoll(log: Log, cursor: nat, limit: int)
    requires Numbered(log) && cursor <= |log|
    ensures Advance(cursor, Page(log, cursor, limit)) == Min(|log|, cursor + AtLeastOne(limit))
  {
    var page := Page(log, cursor, limit);
    if page != [] { assert page[|page| - 1] == log[cursor + |page| - 1]; }
  }

  lemma OneMorePoll(log: Log, cursor: nat, limit: int, before: nat)
    requires Numbered(log) && cursor <= |log|
    ensures var c := Min(|log|, cursor + before);
            Advance(c, Page(log, c, limit)) == Min(|log|, cursor + (before + AtLeastOne(limit)))
  {
    OnePoll(log, Min(|log|, cursor + before), limit);
  }

  lemma {:induction false} CursorAfterLaw(log: Log, cursor: nat, limit: int, k: nat)
    requires Numbered(log) && cursor <= |log|
    ensures CursorAfter(log, cursor, limit, k) == Min(|log|, cursor + k * AtLeastOne(limit))
  {
    if k == 0 {
      TimesZero(AtLeastOne(limit));
    } else {
      CursorAfterLaw(log, cursor, limit, k - 1);
      OneMoreTime(k, AtLeastOne(limit));
      OneMorePoll(log, cursor, limit, (k - 1) * AtLeastOne(limit));
    }
  }

  lemma TimesZero(step: nat)
    ensures 0 * step == 0
  {
  }

  lemma OneMoreTime(k: nat, step: nat)
    requires k > 0
    ensures k * step == (k - 1) * step + step && (k - 1) * step >= 0
  {
  }

  lemma TimesMonotone(a: int, b: int, step: nat)
    requires a <= b
    ensures a * step <= b * step
  {
    assert (b - a) * step >= 0;
  }

  lemma CeilingLaw(m: nat, step: nat, k: nat)
    requires step >= 1
    ensures k * step >= m <==> k >= (m + step - 1) / step
  {
    var q := (m + step - 1) / step;
    assert q * step <= m + step - 1 < q * step + step;
    if k >= q {
      TimesMonotone(q, k, step);
    } else {
      OneMoreTime(q, step);
      TimesMonotone(k, q - 1, step);
    }
  }

  /** With nothing stored meanwhile, a log is drained after `k` polls exactly when `k` has reached the number of pending
      messages divided by the limit, or by one, and rounded up. */
  lemma DrainsInExactly(log: Log, cursor: nat, limit: int, k: nat)
    requires Numbered(log) && cursor <= |log|
    ensures CursorAfter(log, cursor, limit, k) == |log| <==>
              var step := if limit < 1 then 1 else limit; k >= (|log| - cursor + step - 1) / step
  {
    CursorAfterLaw(log, cursor, limit, k);
    CeilingLaw(|log| - cursor, AtLeastOne(limit), k);
  }

  // ---------------------------------------------------------------- the notification session

  /** One connection of the notification example.  `lastId` is the connection's only cursor, whatever
      rooms it fetches from; `sent` is what the connection accepted; `received` is what was fetched, room by room,
      and `delivered` what of that was accepted. */
  class Session {
    const store: MemoryStore
    var lastId: map<string, int>
    var sent: Log
    ghost var received: map<string, Log>
    ghost var delivered: map<string, Log>

    constructor (store: MemoryStore)
      ensures this.store == store && sent == [] && View() == SessionState(store.messages, 0, map[], map[])
    {
      this.store, lastId, sent, received, delivered := store, map[], [], map[], map[];
    }

    ghost function View(): SessionState
      reads this, store
    {
      SessionState(store.messages, Cursor(), received, delivered)
    }

    function Cursor(): int
      reads this
    {
      if "lastId" in lastId then lastId["lastId"] else 0
    }

    /** The `fetch` branch.  `accepts` says which sends succeed; a failed one is only logged, and the cursor
        moves past it all the same. */
    method Fetch(room: string, sinceID: int, accepts: Message -> bool) returns (page: Log)
      requires store.Ok()
      modifies this
      ensures page == Page(LogOf(store.messages, room), if sinceID == 0 then old(Cursor()) else sinceID, 100)
      ensures View() == SessionStep(old(View()), Fetched(room, sinceID, accepts))
      ensures sent == old(sent) + Accepted(page, accepts)
    {
      var since := sinceID;
      if since == 0 { since := Cursor(); }
      page := store.Fetch(room, since, 100);
      Deliver(page, accepts);
      if |page| > 0 {
        lastId := lastId["lastId" := page[|page| - 1].id];
      }
      received := received[room := ReceivedFrom(old(View()), room) + page];
      delivered := delivered[room := DeliveredFrom(old(View()), room) + Accepted(page, accepts)];
    }

    /** The `message` branch. */
    method Post(room: string, content: seq<bv8>, now: int)
      requires store.Ok()
      modifies store
      ensures store.Ok()
      ensures View() == SessionStep(old(View()), Posted(room, Message(0, 0, "text", room, content), now))
    {
      store.Store(room, Message(0, 0, "text", room, content), now);
    }

    method Deliver(page: Log, accepts: Message -> bool)
      modifies this`sent
      ensures sent == old(sent) + Accepted(page, accepts)
    {
      for i := 0 to |page|
        invariant sent == old(sent) + Accepted(page[..i], accepts)
      {
        AcceptedNext(page, accepts, i);
        if accepts(page[i]) { sent := sent + [page[i]]; }
      }
      assert page[..|page|] == page;
    }
  }

  function Accepted(page: Log, accepts: Message -> bool): Log
  {
    if page == [] then []
    else
      var n := |page| - 1;
      Accepted(page[..n], accepts) + if accepts(page[n]) then [page[n]] else []
  }

  lemma AcceptedNext(page: Log, accepts: Message -> bool, i: nat)
    requires i < |page|
    ensures Accepted(page[..i + 1], accepts)
         == Accepted(page[..i], accepts) + if accepts(page[i]) then [page[i]] else []
  {
    assert page[..i + 1][..i] == page[..i];
  }

  /** Exactly the messages whose send succeeded, as often as they were fetched. */
  lemma {:induction false} AcceptedExactly(page: Log, accepts: Message -> bool, m: Message)
    ensures multiset(Accepted(page, accepts))[m] == if accepts(m) then multiset(page)[m] else 0
    decreases |page|
  {
    if page != [] {
      var n := |page| - 1;
      AcceptedExactly(page[..n], accepts, m);
      assert page == page[..n] + [page[n]];
      assert multiset(page) == multiset(page[..n]) + multiset{page[n]};
    }
  }

  predicate InOrder(log: Log) { forall i, j :: 0 <= i < j < |log| ==> log[i].id < log[j].id }

  /** And in the order in which they were fetched. */
  lemma {:induction false} AcceptedInOrder(page: Log, accepts: Message -> bool)
    requires InOrder(page)
    ensures InOrder(Accepted(page, accepts))
    decreases |page|
  {
    if page != [] {
      var n := |page| - 1;
      AcceptedInOrder(page[..n], accepts);
      AcceptedFromPage(page[..n], accepts);
      var got := Accepted(page[..n], accepts);
      forall i | 0 <= i < |got| ensures got[i].id < page[n].id {
        assert got[i] in page[..n];
        var k :| 0 <= k < n && page[k] == got[i];
      }
    }
  }

  // ---------------------------------------------------------------- one cursor for all rooms

  /** What matters about a session: the rooms' logs, its one cursor, what it was handed from each room, and what of that
      its connection accepted. */
  datatype SessionState = SessionState(
    logs: map<string, Log>, cursor: int, received: map<string, Log>, delivered: map<string, Log>)

  /** A message stored by anybody, or a fetch by the session; `sinceID` zero means "from the cursor", and
      `accepts` says which sends succeed. */
  datatype SessionOp =
    | Posted(room: string, m: Message, now: int)
    | Fetched(room: string, sinceID: int, accepts: Message -> bool)

  function ReceivedFrom(s: SessionState, room: string): Log
  {
    if room in s.received then s.received[room] else []
  }

  function DeliveredFrom(s: SessionState, room: string): Log
  {
    if room in s.delivered then s.delivered[room] else []
  }

  function Since(s: SessionState, sinceID: int): int { if sinceID == 0 then s.cursor else sinceID }

  function SessionStep(s: SessionState, op: SessionOp): SessionState
  {
    match op
    case Posted(room, m, now) => s.(logs := s.logs[room := Append(LogOf(s.logs, room), m, now)])
    case Fetched(room, sinceID, accepts) =>
      var page := Page(LogOf(s.logs, room), Since(s, sinceID), 100);
      s.(cursor := Advance(s.cursor, page),
         received := s.received[room := ReceivedFrom(s, room) + page],
         delivered := s.delivered[room := DeliveredFrom(s, room) + Accepted(page, accepts)])
  }

  function SessionRun(s: SessionState, ops: seq<SessionOp>): SessionState
  {
    if ops == [] then s else SessionStep(SessionRun(s, ops[..|ops| - 1]), ops[|ops| - 1])
  }

  ghost predicate LogsNumbered(s: SessionState)
  {
    forall room :: Numbered(LogOf(s.logs, room))
  }

  /** No message of any room was skipped, repeated or reordered. */
  ghost predicate Prefixed(s: SessionState)
  {
    forall room :: ReceivedFrom(s, room) <= LogOf(s.logs, room)
  }

  /** A fetch that has something to return starts right after what the session already has from that room. */
  predicate InPlace(s: SessionState, op: SessionOp)
  {
    op.Fetched? ==>
      var n, start := |LogOf(s.logs, op.room)|, PageStart(|LogOf(s.logs, op.room)|, Since(s, op.sinceID));
      start < n ==> start == |ReceivedFrom(s, op.room)|
  }

  /** Appending a page to a prefix gives a prefix exactly when the page is empty or starts where the prefix ends. */
  lemma PageFollowsIff(log: Log, got: Log, since: int)
    requires Numbered(log) && got <= log
    ensures var start := PageStart(|log|, since);
            got + Page(log, since, 100) <= log <==> (start < |log| ==> start == |got|)
  {
    var start, page := PageStart(|log|, since), Page(log, since, 100);
    assert page == log[start..start + |page|];
    if start < |log| {
      assert page[0].id == start + 1;
      assert (got + page)[|got|] == page[0];
      if start == |got| { SliceJoins(log, 0, start, start + |page|); }
    }
  }

  lemma StepNumbered(s: SessionState, op: SessionOp)
    requires LogsNumbered(s)
    ensures LogsNumbered(SessionStep(s, op))
  {
    var s' := SessionStep(s, op);
    forall room ensures Numbered(LogOf(s'.logs, room)) {
      assert Numbered(LogOf(s.logs, room));
    }
  }

  lemma StepPrefixedIff(s: SessionState, op: SessionOp)
    requires LogsNumbered(s) && Prefixed(s)
    ensures Prefixed(SessionStep(s, op)) <==> InPlace(s, op)
  {
    var s' := SessionStep(s, op);
    if op.Posted? {
      forall room ensures ReceivedFrom(s', room) <= LogOf(s'.logs, room) {
        assert ReceivedFrom(s, room) <= LogOf(s.logs, room) <= LogOf(s'.logs, room);
      }
    } else {
      PageFollowsIff(LogOf(s.logs, op.room), ReceivedFrom(s, op.room), Since(s, op.sinceID));
      forall room | room != op.room ensures ReceivedFrom(s', room) <= LogOf(s'.logs, room) {
        assert ReceivedFrom(s', room) == ReceivedFrom(s, room);
      }
    }
  }

  ghost predicate AlwaysPrefixed(s: SessionState, ops: seq<SessionOp>)
  {
    Prefixed(SessionRun(s, ops)) && (ops != [] ==> AlwaysPrefixed(s, ops[..|ops| - 1]))
  }

  predicate AlwaysInPlace(s: SessionState, ops: seq<SessionOp>)
  {
    ops != [] ==>
      var before := ops[..|ops| - 1];
      AlwaysInPlace(s, before) && InPlace(SessionRun(s, before), ops[|ops| - 1])
  }

  /** Over a whole session: what it has from each room is a prefix of that room's log in every state
      if and only if every fetch finds the one cursor, or the position it names, in place for its room. */
  lemma {:induction false} SharedCursorLaw(s: SessionState, ops: seq<SessionOp>)
    requires LogsNumbered(s) && Prefixed(s)
    ensures AlwaysPrefixed(s, ops) <==> AlwaysInPlace(s, ops)
    ensures LogsNumbered(SessionRun(s, ops))
    decreases |ops|
  {
    if ops != [] {
      var before, op := ops[..|ops| - 1], ops[|ops| - 1];
      SharedCursorLaw(s, before);
      if AlwaysPrefixed(s, before) { StepPrefixedIff(SessionRun(s, before), op); }
      StepNumbered(SessionRun(s, before), op);
    }
  }

  /** The cursor stands where the session's only room left off. */
  ghost predicate OneRoom(s: SessionState, room: string)
  {
    Prefixed(s) && LogsNumbered(s) && s.cursor == |ReceivedFrom(s, room)|
  }

  /** A session that fetches from one room only, and always from its cursor, is safe. */
  lemma {:induction false} OneRoomIsSafe(s: SessionState, ops: seq<SessionOp>, room: string)
    requires OneRoom(s, room)
    requires forall i :: 0 <= i < |ops| && ops[i].Fetched? ==> ops[i].room == room && ops[i].sinceID == 0
    ensures AlwaysPrefixed(s, ops) && OneRoom(SessionRun(s, ops), room)
    decreases |ops|
  {
    if ops != [] {
      var before, op := ops[..|ops| - 1], ops[|ops| - 1];
      OneRoomIsSafe(s, before, room);
      var t := SessionRun(s, before);
      assert ReceivedFrom(t, room) <= LogOf(t.logs, room);
      StepNumbered(t, op);
      StepPrefixedIff(t, op);
      if op.Fetched? { PageExtends(LogOf(t.logs, room), t.cursor, 100, 0); }
    }
  }

  lemma SessionRunAppend(s: SessionState, ops: seq<SessionOp>, op: SessionOp)
    ensures SessionRun(s, ops + [op]) == SessionStep(SessionRun(s, ops), op)
  {
    assert (ops + [op])[..|ops|] == ops;
  }

  // ---------------------------------------------------------------- failed sends

  /** What the client was sent is a prefix of the log, room by room, and not ahead of what was fetched. */
  ghost predicate DeliveredPrefixed(s: SessionState)
  {
    forall room :: DeliveredFrom(s, room) <= LogOf(s.logs, room) && |DeliveredFrom(s, room)| <= |ReceivedFrom(s, room)|
  }

  /** A fetch of which some message is accepted follows no refused one of that room, and accepts a first part of its
      page. */
  predicate Unbroken(s: SessionState, op: SessionOp)
  {
    op.Fetched? ==>
      var page := Page(LogOf(s.logs, op.room), Since(s, op.sinceID), 100);
      var got := Accepted(page, op.accepts);
      got != [] ==> DeliveredFrom(s, op.room) == ReceivedFrom(s, op.room) && got <= page
  }

  lemma {:induction false} AcceptedFromPage(page: Log, accepts: Message -> bool)
    ensures |Accepted(page, accepts)| <= |page|
    ensures forall m :: m in Accepted(page, accepts) ==> m in page
    decreases |page|
  {
    if page != [] { AcceptedFromPage(page[..|page| - 1], accepts); }
  }

  /** A selection of a page that starts at `start`, put behind a prefix that ends at or before it. */
  lemma SelectionFollowsIff(log: Log, start: nat, page: Log, before: Log, got: Log)
    requires Numbered(log) && start + |page| <= |log| && page == log[start..start + |page|]
    requires before <= log && |before| <= start
    requires |got| <= |page| && got != [] && forall m :: m in got ==> m in page
    ensures before + got <= log <==> |before| == start && got <= page
  {
    if before + got <= log {
      assert (before + got)[|before|] == got[0] && got[0] in page;
      assert log[|before|].id == |before| + 1;
      assert forall i :: 0 <= i < |page| ==> page[i].id == start + i + 1;
      forall i | 0 <= i < |got| ensures got[i] == page[i] { assert (before + got)[|before| + i] == log[start + i]; }
    }
    if |before| == start && got <= page {
      assert before == log[..start];
      assert before + page == log[..start + |page|];
    }
  }

  lemma StepDeliveredIff(s: SessionState, op: SessionOp)
    requires LogsNumbered(s) && Prefixed(s) && DeliveredPrefixed(s) && InPlace(s, op)
    ensures DeliveredPrefixed(SessionStep(s, op)) <==> Unbroken(s, op)
  {
    var s' := SessionStep(s, op);
    if op.Posted? {
      forall room
        ensures DeliveredFrom(s', room) <= LogOf(s'.logs, room) && |DeliveredFrom(s', room)| <= |ReceivedFrom(s', room)|
      {
        assert DeliveredFrom(s, room) <= LogOf(s.logs, room) <= LogOf(s'.logs, room);
      }
    } else {
      FetchDeliveredIff(s, op);
      forall room | room != op.room
        ensures DeliveredFrom(s', room) <= LogOf(s'.logs, room) && |DeliveredFrom(s', room)| <= |ReceivedFrom(s', room)|
      {
        assert DeliveredFrom(s, room) <= LogOf(s.logs, room);
      }
    }
  }

  lemma FetchDeliveredIff(s: SessionState, op: SessionOp)
    requires LogsNumbered(s) && Prefixed(s) && DeliveredPrefixed(s) && InPlace(s, op) && op.Fetched?
    ensures var s' := SessionStep(s, op);
            && (DeliveredFrom(s', op.room) <= LogOf(s.logs, op.room) <==> Unbroken(s, op))
            && |DeliveredFrom(s', op.room)| <= |ReceivedFrom(s', op.room)|
  {
    var log, before := LogOf(s.logs, op.room), DeliveredFrom(s, op.room);
    var page := Page(log, Since(s, op.sinceID), 100);
    var got, start := Accepted(page, op.accepts), PageStart(|log|, Since(s, op.sinceID));
    AcceptedFromPage(page, op.accepts);
    assert before <= log && ReceivedFrom(s, op.room) <= log;
    if got == [] {
      assert before + got == before;
    } else {
      assert page == log[start..start + |page|];
      SelectionFollowsIff(log, start, page, before, got);
    }
  }

  ghost predicate AlwaysDelivered(s: SessionState, ops: seq<SessionOp>)
  {
    DeliveredPrefixed(SessionRun(s, ops)) && (ops != [] ==> AlwaysDelivered(s, ops[..|ops| - 1]))
  }

  predicate AlwaysUnbroken(s: SessionState, ops: seq<SessionOp>)
  {
    ops != [] ==>
      var before := ops[..|ops| - 1];
      AlwaysUnbroken(s, before) && Unbroken(SessionRun(s, before), ops[|ops| - 1])
  }

  /** The cursor moves past refused messages.  So, over a session whose fetches are all in place, what the client was
      sent is a prefix of each room's log in every state if and only if nothing is accepted after something refused. */
  lemma {:induction false} RefusedSendLaw(s: SessionState, ops: seq<SessionOp>)
    requires LogsNumbered(s) && Prefixed(s) && DeliveredPrefixed(s) && AlwaysInPlace(s, ops)
    ensures AlwaysDelivered(s, ops) <==> AlwaysUnbroken(s, ops)
    decreases |ops|
  {
    if ops != [] {
      var before, op := ops[..|ops| - 1], ops[|ops| - 1];
      RefusedSendLaw(s, before);
      SharedCursorLaw(s, before);
      if AlwaysDelivered(s, before) { StepDeliveredIff(SessionRun(s, before), op); }
    }
  }

  // ---------------------------------------------------------------- a session that breaks the rule

  const ALWAYS: Message -> bool := m => true

  /** Two rooms are enough to break it: having read the one message of the first room, the session skips the first
      message of the second and is handed its second one. */
  lemma SecondRoomLosesMessage(a: Message, b: Message, c: Message)
    ensures var s := SessionState(map[], 0, map[], map[]);
            var ops := [Posted("red", a, 0), Posted("blue", b, 0), Posted("blue", c, 0), Fetched("red", 0, ALWAYS)];
            && AlwaysPrefixed(s, ops)
            && var t := SessionRun(s, ops + [Fetched("blue", 0, ALWAYS)]);
               |LogOf(t.logs, "blue")| == 2 && ReceivedFrom(t, "blue") == LogOf(t.logs, "blue")[1..] && !Prefixed(t)
  {
    var s := SessionState(map[], 0, map[], map[]);
    var ops := [Posted("red", a, 0), Posted("blue", b, 0), Posted("blue", c, 0), Fetched("red", 0, ALWAYS)];
    assert "red"[0] != "blue"[0];
    OneRoomIsSafe(s, ops, "red");
    SecondRoomRun(a, b, c);
    var u := SessionRun(s, ops);
    SessionRunAppend(s, ops, Fetched("blue", 0, ALWAYS));
    StepPrefixedIff(u, Fetched("blue", 0, ALWAYS));
    assert Page(LogOf(u.logs, "blue"), 1, 100) == LogOf(u.logs, "blue")[1..];
  }

  lemma ThreePosts(a: Message, b: Message, c: Message)
    ensures var t := SessionRun(SessionState(map[], 0, map[], map[]),
                                [Posted("red", a, 0), Posted("blue", b, 0), Posted("blue", c, 0)]);
            && LogsNumbered(t) && t.cursor == 0 && t.received == map[]
            && |LogOf(t.logs, "red")| == 1 && |LogOf(t.logs, "blue")| == 2
  {
    var s := SessionState(map[], 0, map[], map[]);
    assert "red"[0] != "blue"[0];
    var p, q, r := Posted("red", a, 0), Posted("blue", b, 0), Posted("blue", c, 0);
    SessionRunAppend(s, [], p);
    assert [] + [p] == [p];
    SessionRunAppend(s, [p], q);
    assert [p] + [q] == [p, q];
    SessionRunAppend(s, [p, q], r);
    assert [p, q] + [r] == [p, q, r];
    SharedCursorLaw(s, [p, q, r]);
  }

  lemma SecondRoomRun(a: Message, b: Message, c: Message)
    ensures var s := SessionState(map[], 0, map[], map[]);
            var ops := [Posted("red", a, 0), Posted("blue", b, 0), Posted("blue", c, 0), Fetched("red", 0, ALWAYS)];
            var u := SessionRun(s, ops);
            u.cursor == 1 && |LogOf(u.logs, "blue")| == 2 && ReceivedFrom(u, "blue") == []
  {
    var s := SessionState(map[], 0, map[], map[]);
    var posts := [Posted("red", a, 0), Posted("blue", b, 0), Posted("blue", c, 0)];
    ThreePosts(a, b, c);
    SessionRunAppend(s, posts, Fetched("red", 0, ALWAYS));
    assert posts + [Fetched("red", 0, ALWAYS)] == [posts[0], posts[1], posts[2], Fetched("red", 0, ALWAYS)];
    AfterFirstFetch(SessionRun(s, posts));
  }

  lemma AfterFirstFetch(t: SessionState)
    requires LogsNumbered(t) && t.cursor == 0 && t.received == map[] && |LogOf(t.logs, "red")| == 1
    ensures var u := SessionStep(t, Fetched("red", 0, ALWAYS));
            u.cursor == 1 && u.logs == t.logs && ReceivedFrom(u, "blue") == []
  {
    assert "red"[0] != "blue"[0];
    OnePoll(LogOf(t.logs, "red"), 0, 100);
  }
}
