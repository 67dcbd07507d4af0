/** Ordering of MLS messages in a group (section 14 of RFC 9420), as the sends interleave. */
module MlsDelivery {
  import opened Wrappers

  type TxId = nat

  datatype Kind = Welcome | CommitKind | Application | Proposal | GroupInfo

  /** A row of `mls_messages`; `epoch` is what the sender claimed, stored as it came. */
  datatype MlsMessage = MlsMessage(sender: nat, device: string, kind: Kind, epoch: int, seqNo: nat,
                                   target: Option<nat>, bytes: seq<nat>)

  /** A group with its messages in the order in which they were committed. */
  datatype Group = Group(epoch: nat, messages: seq<MlsMessage>)

  datatype WelcomeInput = WelcomeInput(target: nat, bytes: seq<nat>, device: string)
  datatype SendInput = SendInput(conv: nat, sender: nat, device: string, kind: Kind, epoch: int,
                                 bytes: seq<nat>, target: Option<nat>)

  // ---- Creating a group ----

  function WelcomeAt(actor: nat, w: WelcomeInput, seqNo: nat): MlsMessage {
    MlsMessage(actor, w.device, Welcome, 0, seqNo, Some(w.target), w.bytes)
  }

  function Welcomes(actor: nat, ws: seq<WelcomeInput>): (r: seq<MlsMessage>)
    ensures |r| == |ws| && forall k :: 0 <= k < |ws| ==> r[k] == WelcomeAt(actor, ws[k], k + 1)
  {
    seq(|ws|, k requires 0 <= k < |ws| => WelcomeAt(actor, ws[k], k + 1))
  }

  /** The loop of `enableE2ee`. */
  method SaveWelcomes(actor: nat, ws: seq<WelcomeInput>) returns (saved: seq<MlsMessage>)
    ensures saved == Welcomes(actor, ws)
  {
    saved := [];
    var n := 0;
    for k := 0 to |ws|
      invariant n == k && saved == Welcomes(actor, ws)[..k]
    {
      n := n + 1;
      saved := saved + [WelcomeAt(actor, ws[k], n)];
    }
  }

  // ---- Sending ----

  /** `COALESCE(MAX(sequence), 0)` */
  function MaxSeq(ms: seq<MlsMessage>): nat {
    if ms == [] then 0
    else
      var rest := MaxSeq(ms[..|ms| - 1]);
      if ms[|ms| - 1].seqNo > rest then ms[|ms| - 1].seqNo else rest
  }

  datatype Tx =
    | Waiting(input: SendInput)
    | Locked(input: SendInput, epoch: nat)
    | Numbered(input: SendInput, epoch: nat, seqNo: nat)
    | Bumped(input: SendInput, newEpoch: Option<nat>, seqNo: nat)

  /** `created` remembers the messages that each group started with. */
  datatype State = State(groups: map<nat, Group>, locks: map<nat, TxId>, txs: map<TxId, Tx>, created: map<nat, seq<MlsMessage>>)

  datatype Action =
    | Create(conv: nat, actor: nat, welcomes: seq<WelcomeInput>)
    | Begin(tx: TxId, input: SendInput)
    | TakeLock(tx: TxId)
    | ReadMax(tx: TxId)
    | BumpEpoch(tx: TxId)
    | Commit(tx: TxId)
    | Abort(tx: TxId)

  const INITIAL := State(map[], map[], map[], map[])

  function MessageOf(i: SendInput, seqNo: nat): MlsMessage {
    MlsMessage(i.sender, i.device, i.kind, i.epoch, seqNo, i.target, i.bytes)
  }

  function Finish(s: State, t: TxId): State {
    s.(txs := s.txs - {t}, locks := map c | c in s.locks && s.locks[c] != t :: s.locks[c])
  }

  function Do(s: State, a: Action): State {
    match a
    case Create(c, actor, ws) =>
      if c in s.groups then s
      else s.(groups := s.groups[c := Group(0, Welcomes(actor, ws))], created := s.created[c := Welcomes(actor, ws)])
    case Begin(t, input) => if t in s.txs || input.conv !in s.groups then s else s.(txs := s.txs[t := Waiting(input)])
    case TakeLock(t) =>
      if t !in s.txs || !s.txs[t].Waiting? || s.txs[t].input.conv in s.locks || s.txs[t].input.conv !in s.groups then s
      else
        var i := s.txs[t].input;
        s.(txs := s.txs[t := Locked(i, s.groups[i.conv].epoch)], locks := s.locks[i.conv := t])
    case ReadMax(t) =>
      if t !in s.txs || !s.txs[t].Locked? || s.txs[t].input.conv !in s.groups then s
      else
        var Locked(i, epoch) := s.txs[t];
        s.(txs := s.txs[t := Numbered(i, epoch, MaxSeq(s.groups[i.conv].messages) + 1)])
    case BumpEpoch(t) =>
      if t !in s.txs || !s.txs[t].Numbered? then s
      else
        var Numbered(i, epoch, n) := s.txs[t];
        s.(txs := s.txs[t := Bumped(i, if i.kind == CommitKind then Some(epoch + 1) else None, n)])
    case Commit(t) => DoCommit(s, t)
    case Abort(t) => Finish(s, t)
  }

  function DoCommit(s: State, t: TxId): State {
    if t !in s.txs || !s.txs[t].Bumped? || s.txs[t].input.conv !in s.groups then s
    else
      var Bumped(i, newEpoch, n) := s.txs[t];
      var g := s.groups[i.conv];
      Finish(s.(groups := s.groups[i.conv := Group(if newEpoch.Some? then newEpoch.value else g.epoch,
                                                   g.messages + [MessageOf(i, n)])]), t)
  }

  function Run(s: State, actions: seq<Action>): State {
    if actions == [] then s else Do(Run(s, actions[..|actions| - 1]), actions[|actions| - 1])
  }

  // ---- The invariant ----

  function Commits(ms: seq<MlsMessage>): nat {
    if ms == [] then 0 else Commits(ms[..|ms| - 1]) + if ms[|ms| - 1].kind == CommitKind then 1 else 0
  }

  function CommitRows(ms: seq<MlsMessage>): set<nat> { set k: nat | k < |ms| && ms[k].kind == CommitKind }

  /** It is the number of commits. */
  lemma {:induction false} CommitsAreCounted(ms: seq<MlsMessage>)
    ensures Commits(ms) == |CommitRows(ms)|
  {
    if ms != [] {
      var init, last := ms[..|ms| - 1], |ms| - 1;
      CommitsAreCounted(init);
      assert last !in CommitRows(init);
      assert CommitRows(ms) == CommitRows(init) + if ms[last].kind == CommitKind then {last} else {};
    }
  }

  predicate InOrder(ms: seq<MlsMessage>) {
    forall k :: 0 <= k < |ms| ==> ms[k].seqNo == k + 1
  }

  /** Sequences 1 to n in commit order, the initial welcomes first, and one epoch per commit. */
  ghost predicate GroupOk(g: Group, initial: seq<MlsMessage>) {
    InOrder(g.messages) && initial <= g.messages && g.epoch == Commits(g.messages)
  }

  ghost predicate Holds(s: State, t: TxId, c: nat) {
    c in s.locks && s.locks[c] == t && c in s.groups
  }

  ghost predicate TxOk(s: State, t: TxId, tx: Tx) {
    match tx
    case Waiting(i) => true
    case Locked(i, epoch) => Holds(s, t, i.conv) && epoch == s.groups[i.conv].epoch
    case Numbered(i, epoch, n) =>
      Holds(s, t, i.conv) && epoch == s.groups[i.conv].epoch && n == |s.groups[i.conv].messages| + 1
    case Bumped(i, newEpoch, n) =>
      && Holds(s, t, i.conv) && n == |s.groups[i.conv].messages| + 1
      && newEpoch == if i.kind == CommitKind then Some(s.groups[i.conv].epoch + 1) else None
  }

  ghost predicate Inv(s: State) {
    && s.created.Keys == s.groups.Keys
    && (forall c :: c in s.groups ==> GroupOk(s.groups[c], s.created[c]))
    && (forall t :: t in s.txs ==> TxOk(s, t, s.txs[t]))
  }

  /** Under the lock, one more than the maximum is one more than the count. */
  lemma {:induction false} MaxIsCount(ms: seq<MlsMessage>)
    requires InOrder(ms)
    ensures MaxSeq(ms) == |ms|
  {
    if ms != [] { MaxIsCount(ms[..|ms| - 1]); }
  }

  lemma {:induction false} WelcomesHaveNoCommit(ms: seq<MlsMessage>)
    requires forall k :: 0 <= k < |ms| ==> ms[k].kind == Welcome
    ensures Commits(ms) == 0
  {
    if ms != [] { WelcomesHaveNoCommit(ms[..|ms| - 1]); }
  }

  lemma AppendOk(g: Group, initial: seq<MlsMessage>, i: SendInput)
    requires GroupOk(g, initial)
    ensures var ms := g.messages + [MessageOf(i, |g.messages| + 1)];
            GroupOk(Group(if i.kind == CommitKind then g.epoch + 1 else g.epoch, ms), initial)
  {
    var ms := g.messages + [MessageOf(i, |g.messages| + 1)];
    assert ms[..|ms| - 1] == g.messages;
  }

  lemma CommitKeepsInv(s: State, t: TxId)
    requires Inv(s) && t in s.txs
    ensures Inv(DoCommit(s, t))
  {
    assert TxOk(s, t, s.txs[t]);
    if s.txs[t].Bumped? {
      var i := s.txs[t].input;
      AppendOk(s.groups[i.conv], s.created[i.conv], i);
      var next := DoCommit(s, t);
      forall u | u in next.txs ensures TxOk(next, u, next.txs[u]) {
        assert TxOk(s, u, s.txs[u]);
      }
    }
  }

  lemma CreateKeepsInv(s: State, a: Action)
    requires Inv(s) && a.Create?
    ensures Inv(Do(s, a))
  {
    WelcomesHaveNoCommit(Welcomes(a.actor, a.welcomes));
    forall u | u in Do(s, a).txs ensures TxOk(Do(s, a), u, Do(s, a).txs[u]) {
      assert TxOk(s, u, s.txs[u]);
    }
  }

  lemma StepKeepsInv(s: State, a: Action)
    requires Inv(s)
    ensures Inv(Do(s, a))
  {
    match a
    case Create(_, _, _) => CreateKeepsInv(s, a);
    case Commit(t) => if t in s.txs { CommitKeepsInv(s, t); }
    case _ =>
      var next := Do(s, a);
      forall u | u in next.txs ensures TxOk(next, u, next.txs[u]) {
        TxStep(s, a, u);
      }
  }

  lemma TxStep(s: State, a: Action, u: TxId)
    requires Inv(s) && u in Do(s, a).txs && !a.Create? && !a.Commit?
    ensures TxOk(Do(s, a), u, Do(s, a).txs[u])
  {
    if u in s.txs {
      assert TxOk(s, u, s.txs[u]);
      match a
      case ReadMax(t) => ReadStep(s, t, u);
      case TakeLock(t) => LockStep(s, t, u);
      case Abort(t) => AbortStep(s, t, u);
      case _ =>
    }
  }

  lemma ReadStep(s: State, t: TxId, u: TxId)
    requires Inv(s) && u in s.txs
    ensures TxOk(Do(s, ReadMax(t)), u, Do(s, ReadMax(t)).txs[u])
  {
    assert TxOk(s, u, s.txs[u]);
    if t == u && s.txs[u].Locked? { MaxIsCount(s.groups[s.txs[u].input.conv].messages); }
  }

  lemma LockStep(s: State, t: TxId, u: TxId)
    requires Inv(s) && u in s.txs && u in Do(s, TakeLock(t)).txs
    ensures TxOk(Do(s, TakeLock(t)), u, Do(s, TakeLock(t)).txs[u])
  {
    assert TxOk(s, u, s.txs[u]);
  }

  lemma AbortStep(s: State, t: TxId, u: TxId)
    requires Inv(s) && u in s.txs && u in Finish(s, t).txs
    ensures TxOk(Finish(s, t), u, Finish(s, t).txs[u])
  {
    assert TxOk(s, u, s.txs[u]);
  }

  /** However the sends interleave and whichever of them fail: a group's messages are numbered 1 to n
      in commit order with the initial welcomes first, and the group's epoch counts its commits. */
  lemma {:induction false} GroupsAreOrdered(actions: seq<Action>)
    ensures Inv(Run(INITIAL, actions))
  {
    if actions != [] {
      GroupsAreOrdered(actions[..|actions| - 1]);
      StepKeepsInv(Run(INITIAL, actions[..|actions| - 1]), actions[|actions| - 1]);
    }
  }

  /** A committed message is never renumbered or lost, and the epoch never goes back. */
  lemma StepExtends(s: State, a: Action, c: nat)
    requires Inv(s) && c in s.groups
    ensures var next := Do(s, a);
            c in next.groups && s.groups[c].messages <= next.groups[c].messages && s.groups[c].epoch <= next.groups[c].epoch
  {
    if a.Commit? && a.tx in s.txs { assert TxOk(s, a.tx, s.txs[a.tx]); }
  }

  // ---- Pulling messages ----

  // ---- One send on its own ----

  /** The group after a send: the message as it came, with the next sequence, and one epoch more for a commit. */
  ghost predicate Adds(before: Group, after: Group, i: SendInput) {
    && |after.messages| == |before.messages| + 1
    && (forall k :: 0 <= k < |before.messages| ==> after.messages[k] == before.messages[k])
    && after.epoch == before.epoch + (if i.kind == CommitKind then 1 else 0)
    && var m := after.messages[|before.messages|];
       && m.seqNo == |before.messages| + 1 && m.sender == i.sender && m.device == i.device && m.kind == i.kind
       && m.epoch == i.epoch && m.bytes == i.bytes && m.target == i.target
  }

  function Numbering(s: State, t: TxId, i: SendInput): State { Do(Do(Do(s, Begin(t, i)), TakeLock(t)), ReadMax(t)) }

  function Closing(s: State, t: TxId): State { DoCommit(Do(s, BumpEpoch(t)), t) }

  lemma NumberedAdds(s: State, t: TxId, i: SendInput)
    requires t in s.txs && i.conv in s.groups && InOrder(s.groups[i.conv].messages)
    requires s.txs[t] == Numbered(i, s.groups[i.conv].epoch, |s.groups[i.conv].messages| + 1)
    ensures var end := Closing(s, t);
            && t !in end.txs && end.groups.Keys == s.groups.Keys && Adds(s.groups[i.conv], end.groups[i.conv], i)
            && forall c :: c in s.groups && c != i.conv ==> end.groups[c] == s.groups[c]
  {
    var g := s.groups[i.conv];
    var s1 := Do(s, BumpEpoch(t));
    assert s1 == s.(txs := s.txs[t := Bumped(i, if i.kind == CommitKind then Some(g.epoch + 1) else None, |g.messages| + 1)]);
  }

  lemma NumberingReaches(s: State, t: TxId, i: SendInput)
    requires t !in s.txs && i.conv in s.groups && i.conv !in s.locks && InOrder(s.groups[i.conv].messages)
    ensures var end, g := Numbering(s, t, i), s.groups[i.conv];
            end.groups == s.groups && t in end.txs && end.txs[t] == Numbered(i, g.epoch, |g.messages| + 1)
  {
    var g := s.groups[i.conv];
    MaxIsCount(g.messages);
    var s1 := Do(s, Begin(t, i));
    assert s1 == s.(txs := s.txs[t := Waiting(i)]);
    var s2 := Do(s1, TakeLock(t));
    assert s2 == s1.(txs := s1.txs[t := Locked(i, g.epoch)], locks := s1.locks[i.conv := t]);
  }

  /** A send that meets no one else adds its message, and a commit one epoch. */
  lemma LoneSendAdds(s: State, t: TxId, i: SendInput)
    requires Inv(s) && t !in s.txs && i.conv in s.groups && i.conv !in s.locks
    ensures var end := Closing(Numbering(s, t, i), t);
            && t !in end.txs && end.groups.Keys == s.groups.Keys && Adds(s.groups[i.conv], end.groups[i.conv], i)
            && forall c :: c in s.groups && c != i.conv ==> end.groups[c] == s.groups[c]
  {
    assert GroupOk(s.groups[i.conv], s.created[i.conv]);
    NumberingReaches(s, t, i);
    NumberedAdds(Numbering(s, t, i), t, i);
  }

  /** The welcomes of a new group, numbered from 1 at epoch 0, each for its own target and with its own bytes. */
  ghost predicate StartsWith(ms: seq<MlsMessage>, actor: nat, ws: seq<WelcomeInput>) {
    && |ms| == |ws|
    && forall k :: 0 <= k < |ws| ==>
         && ms[k].seqNo == k + 1 && ms[k].sender == actor && ms[k].device == ws[k].device && ms[k].kind == Welcome
         && ms[k].epoch == 0 && ms[k].target == Some(ws[k].target) && ms[k].bytes == ws[k].bytes
  }

  lemma CreateStarts(s: State, c: nat, actor: nat, ws: seq<WelcomeInput>)
    ensures var next := Do(s, Create(c, actor, ws));
            if c in s.groups then next == s
            else
              && next.groups.Keys == s.groups.Keys + {c} && (forall d :: d in s.groups ==> next.groups[d] == s.groups[d])
              && next.groups[c].epoch == 0 && StartsWith(next.groups[c].messages, actor, ws)
  {
  }

  // ---- Pulling ----

  predicate For(m: MlsMessage, user: nat) { m.target.None? || m.target == Some(user) }

  /** Messages for the user after a sequence, in ascending order. */
  function After(ms: seq<MlsMessage>, user: nat, seqNo: nat): seq<MlsMessage> {
    if ms == [] then []
    else
      var last := ms[|ms| - 1];
      After(ms[..|ms| - 1], user, seqNo) + if For(last, user) && last.seqNo > seqNo then [last] else []
  }

  /** `listMlsMessages`: at most 500 rows, 100 by default. */
  function ListMls(ms: seq<MlsMessage>, user: nat, after: Option<nat>, limit: Option<nat>): seq<MlsMessage> {
    var all := After(ms, user, if after.Some? then after.value else 0);
    var n := if limit.Some? then limit.value else 100;
    var size := if n < 500 then n else 500;
    if size < |all| then all[..size] else all
  }

  /** A message that a pull of this user may return. */
  predicate IsOffered(m: MlsMessage, user: nat, after: nat) {
    (m.target == None || m.target == Some(user)) && m.seqNo > after
  }

  /** Exactly the messages for this user, once each and in order; never one targeted at another. */
  lemma {:induction false} AfterIsExact(ms: seq<MlsMessage>, user: nat, seqNo: nat)
    requires InOrder(ms)
    ensures forall i, j :: 0 <= i < j < |After(ms, user, seqNo)| ==> After(ms, user, seqNo)[i].seqNo < After(ms, user, seqNo)[j].seqNo
    ensures forall m :: m in After(ms, user, seqNo) <==> m in ms && IsOffered(m, user, seqNo)
  {
    if ms != [] {
      var init, last := ms[..|ms| - 1], ms[|ms| - 1];
      AfterIsExact(init, user, seqNo);
      assert forall m :: m in ms <==> m in init || m == last;
      assert forall m :: m in init ==> m.seqNo <= |init|;
      var rest := After(init, user, seqNo);
      assert forall i :: 0 <= i < |rest| ==> rest[i] in rest;
    }
  }

  predicate Increasing(ms: seq<MlsMessage>) {
    forall i, j :: 0 <= i < j < |ms| ==> ms[i].seqNo < ms[j].seqNo
  }

  lemma WithoutLast(a: seq<MlsMessage>, m: MlsMessage)
    requires Increasing(a) && a != []
    ensures m in a[..|a| - 1] <==> m in a && m != a[|a| - 1]
  {
    var init, last := a[..|a| - 1], a[|a| - 1];
    assert a == init + [last];
    assert last !in init;
  }

  lemma SameLast(a: seq<MlsMessage>, b: seq<MlsMessage>)
    requires Increasing(a) && Increasing(b) && a != [] && b != [] && forall m :: m in a <==> m in b
    ensures a[|a| - 1] == b[|b| - 1]
  {
    var x, y := a[|a| - 1], b[|b| - 1];
    assert x in a && y in b;
    assert x in b && y in a;
    assert x.seqNo <= y.seqNo && y.seqNo <= x.seqNo;
  }

  lemma {:induction false} SameMembersSameList(a: seq<MlsMessage>, b: seq<MlsMessage>)
    requires Increasing(a) && Increasing(b) && forall m :: m in a <==> m in b
    ensures a == b
  {
    assert b != [] ==> b[0] in b;
    if a != [] {
      assert a[0] in a;
      SameLast(a, b);
      var c, d, x := a[..|a| - 1], b[..|b| - 1], a[|a| - 1];
      forall m ensures m in c <==> m in d {
        WithoutLast(a, m);
        WithoutLast(b, m);
      }
      SameMembersSameList(c, d);
      assert a == c + [x] && b == d + [x];
    }
  }

  /** Pulling goes on where the last page ended: with messages committed in between, what the page
      held and what a pull after its last sequence offers are together all there is, once and in order. */
  lemma PagesJoin(ms: seq<MlsMessage>, later: seq<MlsMessage>, user: nat, after: nat, limit: Option<nat>)
    requires ms <= later && InOrder(later)
    requires ListMls(ms, user, Some(after), limit) != []
    ensures var page := ListMls(ms, user, Some(after), limit);
            After(later, user, after) == page + After(later, user, page[|page| - 1].seqNo)
  {
    assert InOrder(ms);
    var page := ListMls(ms, user, Some(after), limit);
    var last := page[|page| - 1].seqNo;
    var all, rest := After(later, user, after), After(later, user, last);
    AfterIsExact(later, user, after);
    AfterIsExact(later, user, last);
    PageIsPrefix(ms, user, after, limit);
    JoinIncreases(page, rest);
    JoinHolds(ms, later, user, after, limit);
    SameMembersSameList(all, page + rest);
  }

  lemma JoinHolds(ms: seq<MlsMessage>, later: seq<MlsMessage>, user: nat, after: nat, limit: Option<nat>)
    requires ms <= later && InOrder(later) && ListMls(ms, user, Some(after), limit) != []
    ensures var page := ListMls(ms, user, Some(after), limit);
            forall m :: m in After(later, user, after) <==> m in page + After(later, user, page[|page| - 1].seqNo)
  {
    var page := ListMls(ms, user, Some(after), limit);
    var last := page[|page| - 1].seqNo;
    AfterIsExact(later, user, after);
    AfterIsExact(later, user, last);
    forall m ensures m in After(later, user, after) <==> m in page + After(later, user, last) {
      InPageOrAfter(ms, later, user, after, limit, m);
    }
  }

  /** The messages for the user after a sequence, by position. */
  function Offered(ms: seq<MlsMessage>, user: nat, after: nat): set<nat> {
    set k: nat | k < |ms| && IsOffered(ms[k], user, after)
  }

  lemma OfferedGrows(init: seq<MlsMessage>, m: MlsMessage, user: nat, after: nat)
    ensures |Offered(init + [m], user, after)| == |Offered(init, user, after)| + if IsOffered(m, user, after) then 1 else 0
  {
    var ms := init + [m];
    assert |init| !in Offered(init, user, after);
    assert Offered(ms, user, after) == Offered(init, user, after) + if IsOffered(m, user, after) then {|init|} else {};
  }

  lemma {:induction false} AfterCount(ms: seq<MlsMessage>, user: nat, after: nat)
    ensures |After(ms, user, after)| == |Offered(ms, user, after)|
  {
    if ms != [] {
      var init, last := ms[..|ms| - 1], ms[|ms| - 1];
      AfterCount(init, user, after);
      assert ms == init + [last];
      OfferedGrows(init, last, user, after);
    }
  }

  /** A pull returns as many of them as fit: a hundred unless asked otherwise, and never more than 500. */
  lemma PageFills(ms: seq<MlsMessage>, user: nat, after: Option<nat>, limit: Option<nat>)
    ensures var all := |Offered(ms, user, if after.Some? then after.value else 0)|;
            var size := if limit.None? then 100 else if limit.value < 500 then limit.value else 500;
            |ListMls(ms, user, after, limit)| == if size < all then size else all
  {
    AfterCount(ms, user, if after.Some? then after.value else 0);
  }

  lemma JoinIncreases(page: seq<MlsMessage>, rest: seq<MlsMessage>)
    requires page != [] && Increasing(page) && Increasing(rest)
    requires forall m :: m in rest ==> m.seqNo > page[|page| - 1].seqNo
    ensures Increasing(page + rest)
  {
    assert forall i :: 0 <= i < |rest| ==> rest[i] in rest;
  }

  lemma PrefixHolds(all: seq<MlsMessage>, size: nat)
    requires Increasing(all) && size <= |all|
    ensures var page := all[..size];
            && Increasing(page) && (forall m :: m in page ==> m in all)
            && (page != [] ==> forall m :: m in all && m.seqNo <= page[|page| - 1].seqNo ==> m in page)
  {
    var page := all[..size];
    forall m | m in page ensures m in all {
      var i :| 0 <= i < |page| && page[i] == m;
      assert all[i] == m;
    }
    forall m | page != [] && m in all && m.seqNo <= page[|page| - 1].seqNo ensures m in page {
      var i :| 0 <= i < |all| && all[i] == m;
      assert i < |page|;
      assert page[i] == m;
    }
  }

  lemma PageIsPrefix(ms: seq<MlsMessage>, user: nat, after: nat, limit: Option<nat>)
    requires InOrder(ms)
    ensures var page := ListMls(ms, user, Some(after), limit);
            && Increasing(page)
            && (forall m :: m in page ==> m in ms && IsOffered(m, user, after))
            && (page != [] ==> forall m :: m in ms && IsOffered(m, user, after) && m.seqNo <= page[|page| - 1].seqNo ==> m in page)
  {
    AfterIsExact(ms, user, after);
    var page, all := ListMls(ms, user, Some(after), limit), After(ms, user, after);
    assert page == all[..|page|];
    PrefixHolds(all, |page|);
  }

  lemma InPageOrAfter(ms: seq<MlsMessage>, later: seq<MlsMessage>, user: nat, after: nat, limit: Option<nat>, m: MlsMessage)
    requires ms <= later && InOrder(later) && ListMls(ms, user, Some(after), limit) != []
    ensures var page := ListMls(ms, user, Some(after), limit);
            m in later && IsOffered(m, user, after) <==>
            m in page || (m in later && IsOffered(m, user, page[|page| - 1].seqNo))
  {
    assert InOrder(ms);
    PageIsPrefix(ms, user, after, limit);
    var page := ListMls(ms, user, Some(after), limit);
    var top := page[|page| - 1];
    assert top in page;
    if m in later && m.seqNo <= top.seqNo {
      var k :| 0 <= k < |later| && later[k] == m;
      assert top.seqNo <= |ms| by { var i :| 0 <= i < |ms| && ms[i] == top; }
      assert ms[k] == m;
    }
    if m in page {
      var k :| 0 <= k < |ms| && ms[k] == m;
      assert later[k] == m;
    }
  }
}
