/** Listing a conversation, and a reader that polls it while messages keep arriving. */
module MessageReading {
  import opened Wrappers
  import opened LocalKms
  import opened MessageStore
  import opened MessageLog

  /** The undeleted rows after a sequence, in ascending order. */
  function After(rows: seq<Message>, seqNo: nat): seq<Message> {
    if rows == [] then []
    else
      var last := rows[|rows| - 1];
      After(rows[..|rows| - 1], seqNo) + if last.deletedAt.None? && last.seqNo > seqNo then [last] else []
  }

  /** The undeleted rows before a sequence, in descending order. */
  function Before(rows: seq<Message>, seqNo: nat): seq<Message> {
    if rows == [] then []
    else
      var last := rows[|rows| - 1];
      (if last.deletedAt.None? && last.seqNo < seqNo then [last] else []) + Before(rows[..|rows| - 1], seqNo)
  }

  function Take(rows: seq<Message>, n: nat): seq<Message> {
    if n < |rows| then rows[..n] else rows
  }

  function PageSize(limit: Option<nat>): nat {
    var n := if limit.Some? then limit.value else 50;
    if n < 100 then n else 100
  }

  /** `list` over the rows of one conversation, ordered by sequence. */
  function List(rows: seq<Message>, after: Option<nat>, before: Option<nat>, limit: Option<nat>): seq<Message> {
    if after.Some? then Take(After(rows, after.value), PageSize(limit))
    else if before.Some? then Take(Before(rows, before.value), PageSize(limit))
    else Take(Before(rows, |rows| + 1), PageSize(limit))
  }

  predicate InOrder(rows: seq<Message>) {
    forall k :: 0 <= k < |rows| ==> rows[k].seqNo == k + 1
  }

  predicate Increasing(rows: seq<Message>) {
    forall i, j :: 0 <= i < j < |rows| ==> rows[i].seqNo < rows[j].seqNo
  }

  /** A row of the log that a listing may return. */
  predicate Listed(rows: seq<Message>, m: Message) {
    1 <= m.seqNo <= |rows| && rows[m.seqNo - 1] == m && m.deletedAt.None?
  }

  lemma ListedStep(rows: seq<Message>, m: Message)
    requires InOrder(rows) && rows != []
    ensures Listed(rows, m) <==> Listed(rows[..|rows| - 1], m) || (m == rows[|rows| - 1] && m.deletedAt.None?)
  {
  }

  lemma {:induction false} AfterIsExact(rows: seq<Message>, seqNo: nat)
    requires InOrder(rows)
    ensures Increasing(After(rows, seqNo))
    ensures forall m :: m in After(rows, seqNo) <==> Listed(rows, m) && m.seqNo > seqNo
  {
    if rows != [] {
      var init := rows[..|rows| - 1];
      AfterIsExact(init, seqNo);
      forall m ensures m in After(rows, seqNo) <==> Listed(rows, m) && m.seqNo > seqNo {
        assert m in After(init, seqNo) <==> Listed(init, m) && m.seqNo > seqNo;
        ListedStep(rows, m);
      }
    }
  }

  lemma {:induction false} BeforeIsExact(rows: seq<Message>, seqNo: nat)
    requires InOrder(rows)
    ensures forall i, j :: 0 <= i < j < |Before(rows, seqNo)| ==> Before(rows, seqNo)[i].seqNo > Before(rows, seqNo)[j].seqNo
    ensures forall m :: m in Before(rows, seqNo) <==> Listed(rows, m) && m.seqNo < seqNo
  {
    if rows != [] {
      var init := rows[..|rows| - 1];
      BeforeIsExact(init, seqNo);
      forall m ensures m in Before(rows, seqNo) <==> Listed(rows, m) && m.seqNo < seqNo {
        assert m in Before(init, seqNo) <==> Listed(init, m) && m.seqNo < seqNo;
        ListedStep(rows, m);
      }
    }
  }

  // ---- Pages ----

  /** How many rows a page may hold: fifty unless asked otherwise, and never more than a hundred. */
  predicate Size(limit: Option<nat>, n: nat) {
    n == if limit.None? then 50 else if limit.value < 100 then limit.value else 100
  }

  /** The positions of the undeleted rows with a sequence strictly between the two. */
  function Between(rows: seq<Message>, low: int, high: int): set<nat> {
    set k: nat | k < |rows| && low < k + 1 < high && rows[k].deletedAt.None?
  }

  predicate Decreasing(rows: seq<Message>) {
    forall i, j :: 0 <= i < j < |rows| ==> rows[i].seqNo > rows[j].seqNo
  }

  lemma BetweenGrows(rows: seq<Message>, low: int, high: int)
    requires rows != []
    ensures var init, k := rows[..|rows| - 1], |rows| - 1;
            |Between(rows, low, high)| == |Between(init, low, high)| + if low < k + 1 < high && rows[k].deletedAt.None? then 1 else 0
  {
    var init, k := rows[..|rows| - 1], |rows| - 1;
    assert k !in Between(init, low, high);
    assert Between(rows, low, high) == Between(init, low, high) + if low < k + 1 < high && rows[k].deletedAt.None? then {k} else {};
  }

  lemma {:induction false} BeforeCount(rows: seq<Message>, high: nat)
    requires InOrder(rows)
    ensures |Before(rows, high)| == |Between(rows, 0, high)|
  {
    if rows != [] {
      BeforeCount(rows[..|rows| - 1], high);
      BetweenGrows(rows, 0, high);
    }
  }

  lemma {:induction false} AfterCount(rows: seq<Message>, low: nat)
    requires InOrder(rows)
    ensures |After(rows, low)| == |Between(rows, low, |rows| + 1)|
  {
    if rows != [] {
      var init := rows[..|rows| - 1];
      AfterCount(init, low);
      assert Between(init, low, |rows| + 1) == Between(init, low, |rows|);
      BetweenGrows(rows, low, |rows| + 1);
    }
  }

  /** A page of the newest rows below a sequence: in decreasing order, only undeleted rows of the log, none left
      out above its last one, and as many as fit. */
  ghost predicate NewestBelow(rows: seq<Message>, page: seq<Message>, high: int, size: nat) {
    && Decreasing(page)
    && (forall m :: m in page ==> Listed(rows, m) && m.seqNo < high)
    && (forall m :: Listed(rows, m) && m.seqNo < high && (page == [] || m.seqNo >= page[|page| - 1].seqNo) ==> m in page || size == 0)
    && |page| == (if size < |Between(rows, 0, high)| then size else |Between(rows, 0, high)|)
  }

  lemma TakeNewest(rows: seq<Message>, high: nat, size: nat)
    requires InOrder(rows)
    ensures NewestBelow(rows, Take(Before(rows, high), size), high, size)
  {
    var all := Before(rows, high);
    var page := Take(all, size);
    BeforeIsExact(rows, high);
    BeforeCount(rows, high);
    assert page <= all;
    forall m | m in page ensures m in all {
      var i :| 0 <= i < |page| && page[i] == m;
      assert all[i] == m;
    }
    forall m | Listed(rows, m) && m.seqNo < high && (page == [] || m.seqNo >= page[|page| - 1].seqNo) ensures m in page || size == 0 {
      var i :| 0 <= i < |all| && all[i] == m;
      assert size > 0 ==> i < |page|;
      assert i < |page| ==> page[i] == m;
    }
  }

  /** `list` before a sequence. */
  lemma PageBeforeIsExact(rows: seq<Message>, before: nat, limit: Option<nat>, size: nat)
    requires InOrder(rows) && Size(limit, size)
    ensures NewestBelow(rows, List(rows, None, Some(before), limit), before, size)
  {
    TakeNewest(rows, before, size);
  }

  lemma FirstIsNewest(rows: seq<Message>, page: seq<Message>, high: int, size: nat, m: Message)
    requires NewestBelow(rows, page, high, size) && page != [] && Listed(rows, m) && m.seqNo < high
    ensures m.seqNo <= page[0].seqNo
  {
    var last := |page| - 1;
    assert last > 0 ==> page[0].seqNo > page[last].seqNo;
    if m.seqNo >= page[last].seqNo {
      assert size != 0;
      var i :| 0 <= i < |page| && page[i] == m;
      assert i > 0 ==> page[0].seqNo > page[i].seqNo;
    }
  }

  lemma SomeToList(rows: seq<Message>, m: Message)
    requires Listed(rows, m)
    ensures |Between(rows, 0, |rows| + 1)| > 0
  {
    assert m.seqNo - 1 in Between(rows, 0, |rows| + 1);
  }

  /** `list` without cursors: the newest undeleted rows of the whole log, the very newest first. */
  lemma LatestPageIsExact(rows: seq<Message>, limit: Option<nat>, size: nat)
    requires InOrder(rows) && Size(limit, size)
    ensures NewestBelow(rows, List(rows, None, None, limit), |rows| + 1, size)
  {
    TakeNewest(rows, |rows| + 1, size);
  }

  lemma NewestComesFirst(rows: seq<Message>, limit: Option<nat>, m: Message)
    requires InOrder(rows) && Listed(rows, m) && (limit.Some? ==> limit.value >= 1)
    ensures var page := List(rows, None, None, limit); page != [] && page[0].seqNo >= m.seqNo && Listed(rows, page[0])
  {
    var size := if limit.None? then 50 else if limit.value < 100 then limit.value else 100;
    LatestPageIsExact(rows, limit, size);
    SomeToList(rows, m);
    var page := List(rows, None, None, limit);
    assert page[0] in page;
    FirstIsNewest(rows, page, |rows| + 1, size, m);
  }

  /** `list` after a sequence: as many rows as fit. `PageIsExact` says which. */
  lemma PageAfterCount(rows: seq<Message>, after: nat, before: Option<nat>, limit: Option<nat>, size: nat)
    requires InOrder(rows) && Size(limit, size)
    ensures var all := |Between(rows, after, |rows| + 1)|;
            |List(rows, Some(after), before, limit)| == if size < all then size else all
  {
    AfterCount(rows, after);
  }

  /** No listing returns a deleted row. */
  lemma DeletedIsNotListed(rows: seq<Message>, after: Option<nat>, before: Option<nat>, limit: Option<nat>, m: Message)
    requires InOrder(rows) && m in List(rows, after, before, limit)
    ensures m in rows && m.deletedAt.None?
  {
    if after.Some? {
      AfterIsExact(rows, after.value);
    } else {
      BeforeIsExact(rows, if before.Some? then before.value else |rows| + 1);
    }
  }

  // ---- The polling reader ----

  datatype Reader = Reader(cursor: nat, got: seq<Message>)

  function Poll(rows: seq<Message>, r: Reader, limit: Option<nat>): Reader {
    var page := List(rows, Some(r.cursor), None, limit);
    Reader(if page == [] then r.cursor else page[|page| - 1].seqNo, r.got + page)
  }

  predicate Received(got: seq<Message>, m: Message) {
    exists i :: 0 <= i < |got| && got[i].id == m.id && got[i].seqNo == m.seqNo
  }

  /** Everything received is in order, without repetition, and from the log. */
  ghost predicate Traced(rows: seq<Message>, r: Reader) {
    && Increasing(r.got)
    && forall i :: 0 <= i < |r.got| ==>
         1 <= r.got[i].seqNo <= r.cursor <= |rows| && rows[r.got[i].seqNo - 1].id == r.got[i].id
  }

  /** Nothing undeleted up to the cursor was missed. */
  ghost predicate Complete(rows: seq<Message>, r: Reader) {
    && r.cursor <= |rows|
    && forall k :: 0 <= k < r.cursor && rows[k].deletedAt.None? ==> Received(r.got, rows[k])
  }

  ghost predicate Following(rows: seq<Message>, r: Reader) {
    Traced(rows, r) && Complete(rows, r)
  }

  lemma ReceivedAppend(got: seq<Message>, page: seq<Message>, m: Message)
    ensures Received(got, m) || m in page ==> Received(got + page, m)
  {
    if Received(got, m) {
      var i :| 0 <= i < |got| && got[i].id == m.id && got[i].seqNo == m.seqNo;
      assert (got + page)[i] == got[i];
    } else if m in page {
      var i :| 0 <= i < |page| && page[i] == m;
      assert (got + page)[|got| + i] == m;
    }
  }

  /** A page holds the first rows after the cursor: exactly those up to its own last sequence. */
  lemma PageIsExact(rows: seq<Message>, cursor: nat, limit: Option<nat>)
    requires InOrder(rows)
    ensures var page := List(rows, Some(cursor), None, limit);
            && Increasing(page)
            && (forall m :: m in page ==> Listed(rows, m) && m.seqNo > cursor)
            && (forall m :: Listed(rows, m) && m.seqNo > cursor && (|page| < PageSize(limit) || (page != [] && m.seqNo <= page[|page| - 1].seqNo))
                  ==> m in page)
  {
    AfterIsExact(rows, cursor);
    PrefixIsExact(After(rows, cursor), PageSize(limit));
  }

  lemma PrefixIsExact(all: seq<Message>, size: nat)
    requires Increasing(all)
    ensures var page := Take(all, size);
            && Increasing(page)
            && (forall m :: m in page ==> m in all)
            && (forall m :: m in all && (|page| < size || (page != [] && m.seqNo <= page[|page| - 1].seqNo)) ==> m in page)
  {
    var page := Take(all, size);
    assert page <= all;
    forall m | m in page ensures m in all {
      var i :| 0 <= i < |page| && page[i] == m;
      assert all[i] == m;
    }
    forall m | m in all && (|page| < size || (page != [] && m.seqNo <= page[|page| - 1].seqNo)) ensures m in page {
      var i :| 0 <= i < |all| && all[i] == m;
      assert i < |page|;
      assert page[i] == m;
    }
  }

  lemma PageIsTraced(rows: seq<Message>, r: Reader, page: seq<Message>)
    requires Traced(rows, r) && page != [] && Increasing(page)
    requires forall m :: m in page ==> Listed(rows, m) && m.seqNo > r.cursor
    ensures page[|page| - 1].seqNo <= |rows| && Traced(rows, Reader(page[|page| - 1].seqNo, r.got + page))
  {
    var last, got := page[|page| - 1], r.got + page;
    assert last in page;
    forall i | 0 <= i < |got| ensures 1 <= got[i].seqNo <= last.seqNo <= |rows| && rows[got[i].seqNo - 1].id == got[i].id {
      if i >= |r.got| { assert page[i - |r.got|] in page; }
    }
  }

  /** What was received before and what the page brings leave no gap up to the page's end. */
  lemma PageLeavesNoGap(rows: seq<Message>, r: Reader, page: seq<Message>, last: nat)
    requires InOrder(rows) && Complete(rows, r) && last <= |rows|
    requires forall m :: Listed(rows, m) && r.cursor < m.seqNo <= last ==> m in page
    ensures Complete(rows, Reader(last, r.got + page))
  {
    forall k | 0 <= k < last && rows[k].deletedAt.None? ensures Received(r.got + page, rows[k]) {
      if k >= r.cursor { assert Listed(rows, rows[k]); }
      ReceivedAppend(r.got, page, rows[k]);
    }
  }

  lemma PollFollows(rows: seq<Message>, r: Reader, limit: Option<nat>)
    requires InOrder(rows) && Following(rows, r)
    ensures Following(rows, Poll(rows, r, limit))
  {
    var page := List(rows, Some(r.cursor), None, limit);
    PageIsExact(rows, r.cursor, limit);
    if page == [] {
      assert r.got + page == r.got;
    } else {
      PageIsTraced(rows, r, page);
      PageLeavesNoGap(rows, r, page, page[|page| - 1].seqNo);
    }
  }

  /** A page that is not full means that the reader has caught up. */
  lemma ShortPageCatchesUp(rows: seq<Message>, r: Reader, limit: Option<nat>)
    requires InOrder(rows) && Following(rows, r)
    requires |List(rows, Some(r.cursor), None, limit)| < PageSize(limit)
    ensures forall k :: 0 <= k < |rows| && rows[k].deletedAt.None? ==> Received(Poll(rows, r, limit).got, rows[k])
  {
    PageIsExact(rows, r.cursor, limit);
    forall k | 0 <= k < |rows| && rows[k].deletedAt.None? ensures Received(Poll(rows, r, limit).got, rows[k]) {
      ReceivedAppend(r.got, List(rows, Some(r.cursor), None, limit), rows[k]);
      assert k >= r.cursor ==> Listed(rows, rows[k]);
    }
  }

  /** And a full page always moves the cursor forward, by at least the page's length. */
  lemma PollAdvances(rows: seq<Message>, r: Reader, limit: Option<nat>)
    requires InOrder(rows)
    ensures Poll(rows, r, limit).cursor >= r.cursor + |List(rows, Some(r.cursor), None, limit)|
  {
    PageIsExact(rows, r.cursor, limit);
    var page := List(rows, Some(r.cursor), None, limit);
    if page != [] {
      IncreasingSpan(page, |page| - 1);
      assert page[0] in page;
    }
  }

  lemma {:induction false} IncreasingSpan(page: seq<Message>, i: nat)
    requires Increasing(page) && i < |page|
    ensures page[i].seqNo >= page[0].seqNo + i
  {
    if i > 0 { IncreasingSpan(page, i - 1); }
  }

  /** The log as it was, as far as a reader can tell: rows stay in place and none is undeleted. */
  predicate Later(before: seq<Message>, after: seq<Message>) {
    Grown(before, after) && forall k :: 0 <= k < |before| && after[k].deletedAt.None? ==> before[k].deletedAt.None?
  }

  lemma ApplyLater(db: Store, op: Op, c: Uuid)
    requires Legal(db, op) && Numbered(db) && c in db.log
    ensures c in Apply(db, op).log && Later(db.log[c], Apply(db, op).log[c])
  {
    ApplyGrows(db, op, c);
  }

  lemma LaterFollows(before: seq<Message>, after: seq<Message>, r: Reader)
    requires Later(before, after) && Following(before, r)
    ensures Following(after, r)
  {
    forall k | 0 <= k < r.cursor && after[k].deletedAt.None? ensures Received(r.got, after[k]) {
      assert Received(r.got, before[k]);
    }
  }

  /** A run of the system with polls of one conversation in between. */
  datatype Event = Step(a: Action) | Polls(limit: Option<nat>)

  datatype Pair = Pair(s: State, r: Reader)

  function Watch(p: Primitives, c: Uuid, start: Pair, events: seq<Event>): Pair {
    if events == [] then start
    else
      var mid := Watch(p, c, start, events[..|events| - 1]);
      match events[|events| - 1]
      case Step(a) => Pair(Do(p, mid.s, a), mid.r)
      case Polls(limit) => if c in mid.s.db.log then Pair(mid.s, Poll(mid.s.db.log[c], mid.r, limit)) else mid
  }

  /** Whatever commits between its polls, a reader that always asks for what follows the last
      sequence it saw receives every message that stays undeleted, once and in order. */
  lemma {:induction false} ReaderMissesNothing(p: Primitives, c: Uuid, s: State, events: seq<Event>)
    requires Inv(s) && c in s.db.log
    ensures var end := Watch(p, c, Pair(s, Reader(0, [])), events);
            Inv(end.s) && c in end.s.db.log && Following(end.s.db.log[c], end.r)
  {
    if events != [] {
      var init := events[..|events| - 1];
      ReaderMissesNothing(p, c, s, init);
      var mid := Watch(p, c, Pair(s, Reader(0, [])), init);
      match events[|events| - 1]
      case Step(a) =>
        StepKeepsInv(p, mid.s, a);
        StepRefines(p, mid.s, a);
        if OpOf(mid.s, a).Some? {
          ApplyLater(mid.s.db, OpOf(mid.s, a).value, c);
          LaterFollows(mid.s.db.log[c], Do(p, mid.s, a).db.log[c], mid.r);
        }
      case Polls(limit) =>
        PollFollows(mid.s.db.log[c], mid.r, limit);
    }
  }

  // ---- Catching up ----

  function PollAll(rows: seq<Message>, r: Reader, limits: seq<Option<nat>>): Reader {
    if limits == [] then r
    else Poll(rows, PollAll(rows, r, limits[..|limits| - 1]), limits[|limits| - 1])
  }

  /** Every message that is still undeleted has been received. */
  ghost predicate CaughtUp(rows: seq<Message>, r: Reader) {
    forall k :: 0 <= k < |rows| && rows[k].deletedAt.None? ==> Received(r.got, rows[k])
  }

  lemma StaysCaughtUp(rows: seq<Message>, r: Reader, limit: Option<nat>)
    requires CaughtUp(rows, r)
    ensures CaughtUp(rows, Poll(rows, r, limit))
  {
    forall k | 0 <= k < |rows| && rows[k].deletedAt.None? ensures Received(Poll(rows, r, limit).got, rows[k]) {
      ReceivedAppend(r.got, List(rows, Some(r.cursor), None, limit), rows[k]);
    }
  }

  /** Each poll moves the cursor on, unless there is nothing left to receive. */
  lemma {:induction false} PollsProgress(rows: seq<Message>, r: Reader, limits: seq<Option<nat>>)
    requires InOrder(rows) && Following(rows, r) && forall i :: 0 <= i < |limits| && limits[i].Some? ==> limits[i].value >= 1
    ensures var end := PollAll(rows, r, limits);
            Following(rows, end) && (CaughtUp(rows, end) || end.cursor >= r.cursor + |limits|)
  {
    if limits != [] {
      var init, limit := limits[..|limits| - 1], limits[|limits| - 1];
      PollsProgress(rows, r, init);
      var mid := PollAll(rows, r, init);
      PollFollows(rows, mid, limit);
      if CaughtUp(rows, mid) {
        StaysCaughtUp(rows, mid, limit);
      } else if List(rows, Some(mid.cursor), None, limit) == [] {
        ShortPageCatchesUp(rows, mid, limit);
      } else {
        PollAdvances(rows, mid, limit);
      }
    }
  }

  /** After any run, as many further polls as the log has messages beyond the cursor, with any limits of at
      least one and nothing committed in between, leave the reader with every undeleted message, once and in order. */
  lemma ReaderCatchesUp(p: Primitives, c: Uuid, s: State, events: seq<Event>, limits: seq<Option<nat>>)
    requires Inv(s) && c in s.db.log && forall i :: 0 <= i < |limits| && limits[i].Some? ==> limits[i].value >= 1
    requires var now := Watch(p, c, Pair(s, Reader(0, [])), events);
             c in now.s.db.log && |limits| >= |now.s.db.log[c]| - now.r.cursor
    ensures var now := Watch(p, c, Pair(s, Reader(0, [])), events);
            var end := PollAll(now.s.db.log[c], now.r, limits);
            Following(now.s.db.log[c], end) && CaughtUp(now.s.db.log[c], end)
  {
    ReaderMissesNothing(p, c, s, events);
    var now := Watch(p, c, Pair(s, Reader(0, [])), events);
    PollsProgress(now.s.db.log[c], now.r, limits);
  }
}
