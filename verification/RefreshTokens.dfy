/** Refresh-token rotation with reuse detection. Each service call is one step. */
module RefreshTokens {
  import opened Wrappers

  /** A row of `refresh_tokens`; a row is identified by its position in the table, which only grows. */
  datatype Token = Token(user: nat, hash: string, parent: Option<nat>, expires: int, revoked: Option<Revocation>)
  datatype Revocation = Revocation(at: int, reason: string)
  type Table = seq<Token>

  // ---- Statements ----

  function Find(t: Table, hash: string): (r: Option<nat>)
    ensures r.Some? ==> r.value < |t| && t[r.value].hash == hash
    ensures r.None? ==> forall i :: 0 <= i < |t| ==> t[i].hash != hash
  {
    if t == [] then None
    else if t[|t| - 1].hash == hash then Some(|t| - 1)
    else Find(t[..|t| - 1], hash)
  }

  predicate Covers(who: Target, row: Token) {
    match who
    case User(u) => row.user == u
    case Hash(h) => row.hash == h
  }

  datatype Target = User(user: nat) | Hash(hash: string)

  /** `UPDATE … SET revoked_at, revoked_reason WHERE … AND revoked_at IS NULL` */
  function RevokeRow(row: Token, who: Target, mark: Revocation): Token {
    if Covers(who, row) && row.revoked.None? then row.(revoked := Some(mark)) else row
  }

  function RevokeRows(t: Table, who: Target, mark: Revocation): (r: Table)
    ensures |r| == |t| && forall i :: 0 <= i < |t| ==> r[i] == RevokeRow(t[i], who, mark)
  {
    seq(|t|, i requires 0 <= i < |t| => RevokeRow(t[i], who, mark))
  }

  /** The hash is unique; the insert of a second one fails. */
  function Insert(t: Table, user: nat, hash: string, parent: Option<nat>, expires: int): Result<Table> {
    if Find(t, hash).Some? then Err("duplicate key value") else Ok(t + [Token(user, hash, parent, expires, None)])
  }

  // ---- Calls ----

  datatype Call =
    | Login(user: nat, hash: string, expires: int)
    | Rotate(hash: string, nextHash: string, now: int, expires: int)
    | Revoke(hash: string, now: int, reason: string)
    | RevokeAll(user: nat, now: int, reason: string)

  datatype Rotation = Rotated(row: nat) | Refused(why: string)

  function RotateCall(t: Table, hash: string, nextHash: string, now: int, expires: int): (Table, Rotation) {
    match Find(t, hash)
    case None => (t, Refused("Refresh token invalide"))
    case Some(i) =>
      if t[i].revoked.Some? then
        (RevokeRows(t, User(t[i].user), Revocation(now, "family_compromise")), Refused("Session compromise"))
      else if t[i].expires < now then (t, Refused("Refresh token expiré"))
      else
        var spent := t[i := t[i].(revoked := Some(Revocation(now, "rotated")))];
        match Insert(spent, t[i].user, nextHash, Some(i), expires)
        case Err(e) => (spent, Refused(e))
        case Ok(issued) => (issued, Rotated(i))
  }

  function Do(t: Table, c: Call): Table {
    match c
    case Login(user, hash, expires) =>
      var r := Insert(t, user, hash, None, expires);
      if r.Ok? then r.value else t
    case Rotate(hash, nextHash, now, expires) => RotateCall(t, hash, nextHash, now, expires).0
    case Revoke(hash, now, reason) => RevokeRows(t, Hash(hash), Revocation(now, reason))
    case RevokeAll(user, now, reason) => RevokeRows(t, User(user), Revocation(now, reason))
  }

  function Run(t: Table, calls: seq<Call>): Table {
    if calls == [] then t else Do(Run(t, calls[..|calls| - 1]), calls[|calls| - 1])
  }

  // ---- What the statements and calls do, row by row ----

  /** The update: the rows of the user, or with the hash, that are not revoked are marked, and no other. */
  ghost predicate Revokes(before: Table, after: Table, who: Target, mark: Revocation) {
    && |after| == |before|
    && forall i :: 0 <= i < |before| ==>
         if before[i].revoked.None? && (if who.User? then before[i].user == who.user else before[i].hash == who.hash)
         then Marks(before[i], after[i], mark) else after[i] == before[i]
  }

  predicate Marks(row: Token, next: Token, mark: Revocation) {
    && next.user == row.user && next.hash == row.hash && next.parent == row.parent && next.expires == row.expires
    && next.revoked == Some(mark)
  }

  lemma RevokeMeans(t: Table, who: Target, mark: Revocation)
    ensures Revokes(t, RevokeRows(t, who, mark), who, mark)
  {
  }

  /** One live row more. */
  ghost predicate AddsToken(before: Table, after: Table, user: nat, hash: string, parent: Option<nat>, expires: int) {
    && |after| == |before| + 1 && before <= after
    && var row := after[|before|];
       row.user == user && row.hash == hash && row.parent == parent && row.expires == expires && row.revoked.None?
  }

  predicate Taken(t: Table, hash: string) { exists i :: 0 <= i < |t| && t[i].hash == hash }

  lemma InsertMeans(t: Table, user: nat, hash: string, parent: Option<nat>, expires: int)
    ensures if Taken(t, hash) then Insert(t, user, hash, parent, expires).Err?
            else Insert(t, user, hash, parent, expires).Ok? && AddsToken(t, Insert(t, user, hash, parent, expires).value, user, hash, parent, expires)
  {
  }

  /** A rotation, told by the presented row: an unknown or expired token changes nothing; a revoked one revokes
      all of its user's; a live one is revoked, and replaced unless the new hash is taken. */
  ghost predicate Rotates(before: Table, after: Table, hash: string, nextHash: string, now: int, expires: int, r: Rotation) {
    if !Taken(before, hash) then r.Refused? && after == before
    else
      exists i :: 0 <= i < |before| && before[i].hash == hash &&
        if before[i].revoked.Some? then r.Refused? && Revokes(before, after, User(before[i].user), Revocation(now, "family_compromise"))
        else if before[i].expires < now then r.Refused? && after == before
        else
          exists mid :: Spends(before, mid, i, now) &&
            if Taken(before, nextHash) then r.Refused? && after == mid
            else r == Rotated(i) && AddsToken(mid, after, before[i].user, nextHash, Some(i), expires)
  }

  ghost predicate Spends(before: Table, mid: Table, i: nat, now: int) {
    && |mid| == |before| && i < |before|
    && (forall j :: 0 <= j < |before| && j != i ==> mid[j] == before[j])
    && Marks(before[i], mid[i], Revocation(now, "rotated"))
  }

  lemma RotateMeans(t: Table, hash: string, nextHash: string, now: int, expires: int)
    ensures var (after, r) := RotateCall(t, hash, nextHash, now, expires);
            Rotates(t, after, hash, nextHash, now, expires, r)
  {
    var (after, r) := RotateCall(t, hash, nextHash, now, expires);
    if Find(t, hash).Some? {
      var i := Find(t, hash).value;
      if t[i].revoked.Some? {
        RevokeMeans(t, User(t[i].user), Revocation(now, "family_compromise"));
      } else if t[i].expires >= now {
        var mid := t[i := t[i].(revoked := Some(Revocation(now, "rotated")))];
        assert Spends(t, mid, i, now);
        assert Taken(mid, nextHash) <==> Taken(t, nextHash) by { SpendKeepsTaken(t, mid, i, now, nextHash); }
        InsertMeans(mid, t[i].user, nextHash, Some(i), expires);
      }
    }
  }

  lemma SpendKeepsTaken(t: Table, mid: Table, i: nat, now: int, hash: string)
    requires Spends(t, mid, i, now)
    ensures Taken(mid, hash) <==> Taken(t, hash)
  {
    if Taken(t, hash) {
      var j :| 0 <= j < |t| && t[j].hash == hash;
      assert mid[j].hash == hash;
    }
    if Taken(mid, hash) {
      var j :| 0 <= j < |mid| && mid[j].hash == hash;
      assert t[j].hash == hash;
    }
  }

  class RefreshTokensService {
    var rows: Table
    const ttl: int

    constructor (ttl: int)
      ensures rows == [] && this.ttl == ttl
    {
      rows, this.ttl := [], ttl;
    }

    method UpdateWhere(who: Target, mark: Revocation)
      modifies this
      ensures rows == RevokeRows(old(rows), who, mark)
      ensures Revokes(old(rows), rows, who, mark)
    {
      for i := 0 to |rows|
        invariant |rows| == |old(rows)|
        invariant forall j :: 0 <= j < |rows| ==> rows[j] == if j < i then RevokeRow(old(rows)[j], who, mark) else old(rows)[j]
      {
        if Covers(who, rows[i]) && rows[i].revoked.None? {
          rows := rows[i := rows[i].(revoked := Some(mark))];
        }
      }
    }

    method Issue(user: nat, hash: string, parent: Option<nat>, now: int) returns (r: Result<()>)
      modifies this
      ensures rows == (match Insert(old(rows), user, hash, parent, now + ttl) case Ok(next) => next case Err(_) => old(rows))
      ensures if Taken(old(rows), hash) then r.Err? && rows == old(rows)
              else r.Ok? && AddsToken(old(rows), rows, user, hash, parent, now + ttl)
    {
      if Find(rows, hash).Some? { return Err("duplicate key value"); }
      rows := rows + [Token(user, hash, parent, now + ttl, None)];
      return Ok(());
    }

    method RotateToken(hash: string, nextHash: string, now: int) returns (r: Rotation)
      modifies this
      ensures (rows, r) == RotateCall(old(rows), hash, nextHash, now, now + ttl)
      ensures Rotates(old(rows), rows, hash, nextHash, now, now + ttl, r)
    {
      RotateMeans(rows, hash, nextHash, now, now + ttl);
      var found := Find(rows, hash);
      if found.None? { return Refused("Refresh token invalide"); }
      var i := found.value;
      if rows[i].revoked.Some? {
        UpdateWhere(User(rows[i].user), Revocation(now, "family_compromise"));
        return Refused("Session compromise");
      }
      if rows[i].expires < now { return Refused("Refresh token expiré"); }
      rows := rows[i := rows[i].(revoked := Some(Revocation(now, "rotated")))];
      var issued := Issue(rows[i].user, nextHash, Some(i), now);
      if issued.Err? { return Refused("duplicate key value"); }
      return Rotated(i);
    }

    /** `revoke`: the presented token is revoked afterwards, whoever presents it. */
    method RevokeToken(hash: string, now: int, reason: string)
      modifies this
      ensures Revokes(old(rows), rows, Hash(hash), Revocation(now, reason))
      ensures forall i :: 0 <= i < |rows| && rows[i].hash == hash ==> rows[i].revoked.Some?
    {
      UpdateWhere(Hash(hash), Revocation(now, reason));
    }

    /** `revokeAllForUser` */
    method RevokeAllForUser(user: nat, now: int, reason: string)
      modifies this
      ensures Revokes(old(rows), rows, User(user), Revocation(now, reason))
      ensures forall i :: 0 <= i < |rows| && rows[i].user == user ==> rows[i].revoked.Some?
    {
      UpdateWhere(User(user), Revocation(now, reason));
    }
  }

  // ---- What every call keeps ----

  /** Parents come earlier, belong to the same user and are revoked; no row has two children. */
  ghost predicate Chains(t: Table) {
    && (forall i :: 0 <= i < |t| && t[i].parent.Some? ==>
          t[i].parent.value < i && t[t[i].parent.value].user == t[i].user && t[t[i].parent.value].revoked.Some?)
    && (forall i, j :: 0 <= i < j < |t| && t[i].parent.Some? ==> t[i].parent != t[j].parent)
  }

  /** Revoking more rows breaks no chain. */
  lemma RevokingKeepsChains(t: Table, next: Table)
    requires Chains(t) && |next| == |t|
    requires forall i :: 0 <= i < |t| ==>
               next[i].user == t[i].user && next[i].parent == t[i].parent && (t[i].revoked.Some? ==> next[i].revoked.Some?)
    ensures Chains(next)
  {
  }

  /** A row that is not revoked has no child yet. */
  lemma AppendKeepsChains(t: Table, row: Token)
    requires Chains(t)
    requires row.parent.Some? ==>
               && row.parent.value < |t| && t[row.parent.value].user == row.user && t[row.parent.value].revoked.Some?
               && forall j :: 0 <= j < |t| ==> t[j].parent != row.parent
    ensures Chains(t + [row])
  {
  }

  lemma RotateKeepsChains(t: Table, hash: string, nextHash: string, now: int, expires: int)
    requires Chains(t)
    ensures Chains(RotateCall(t, hash, nextHash, now, expires).0)
  {
    if Find(t, hash).Some? {
      var i := Find(t, hash).value;
      if t[i].revoked.Some? {
        RevokingKeepsChains(t, RevokeRows(t, User(t[i].user), Revocation(now, "family_compromise")));
      } else if t[i].expires >= now {
        var spent := t[i := t[i].(revoked := Some(Revocation(now, "rotated")))];
        RevokingKeepsChains(t, spent);
        assert forall j :: 0 <= j < |spent| ==> spent[j].parent != Some(i);
        AppendKeepsChains(spent, Token(t[i].user, nextHash, Some(i), expires, None));
      }
    }
  }

  lemma DoKeepsChains(t: Table, c: Call)
    requires Chains(t)
    ensures Chains(Do(t, c))
  {
    match c
    case Login(user, hash, expires) => AppendKeepsChains(t, Token(user, hash, None, expires, None));
    case Rotate(hash, nextHash, now, expires) => RotateKeepsChains(t, hash, nextHash, now, expires);
    case Revoke(_, _, _) => RevokingKeepsChains(t, Do(t, c));
    case RevokeAll(_, _, _) => RevokingKeepsChains(t, Do(t, c));
  }

  lemma {:induction false} RunKeepsChains(calls: seq<Call>)
    ensures Chains(Run([], calls))
  {
    if calls != [] {
      RunKeepsChains(calls[..|calls| - 1]);
      DoKeepsChains(Run([], calls[..|calls| - 1]), calls[|calls| - 1]);
    }
  }

  // ---- Logins ----

  /** The login that a token goes back to, and how many rotations away it is. */
  function Root(t: Table, i: nat): nat
    requires Chains(t) && i < |t|
  {
    if t[i].parent.None? then i else Root(t, t[i].parent.value)
  }

  function Depth(t: Table, i: nat): nat
    requires Chains(t) && i < |t|
  {
    if t[i].parent.None? then 0 else 1 + Depth(t, t[i].parent.value)
  }

  lemma {:induction false} SameDepthSameToken(t: Table, i: nat, j: nat)
    requires Chains(t) && i < |t| && j < |t| && Root(t, i) == Root(t, j) && Depth(t, i) == Depth(t, j)
    ensures i == j
  {
    if t[i].parent.Some? {
      SameDepthSameToken(t, t[i].parent.value, t[j].parent.value);
    }
  }

  /** The ancestor of `j` at a smaller depth, and its child on the way to `j`. */
  lemma {:induction false} ShallowerIsAncestor(t: Table, i: nat, j: nat)
    requires Chains(t) && i < |t| && j < |t| && Root(t, i) == Root(t, j) && Depth(t, i) < Depth(t, j)
    ensures i < j && t[i].revoked.Some?
    decreases j
  {
    var up := t[j].parent.value;
    if Depth(t, up) == Depth(t, i) {
      SameDepthSameToken(t, i, up);
    } else {
      ShallowerIsAncestor(t, i, up);
    }
  }

  /** In a table of chains, the tokens of one login form a single one: of any two, one is the later,
      and only the last can be unrevoked. */
  lemma LoginIsOneChain(t: Table, i: nat, j: nat)
    requires Chains(t) && i < j < |t| && Root(t, i) == Root(t, j)
    ensures Depth(t, i) < Depth(t, j) && t[i].revoked.Some?
  {
    if Depth(t, i) == Depth(t, j) {
      SameDepthSameToken(t, i, j);
    } else if Depth(t, j) < Depth(t, i) {
      ShallowerIsAncestor(t, j, i);
    } else {
      ShallowerIsAncestor(t, i, j);
    }
  }

  /** So it is in every run of whole calls. */
  lemma OneLiveTokenPerLogin(calls: seq<Call>, i: nat, j: nat)
    requires i < j < |Run([], calls)|
    ensures Chains(Run([], calls))
    ensures Root(Run([], calls), i) == Root(Run([], calls), j) ==>
              Depth(Run([], calls), i) < Depth(Run([], calls), j) && Run([], calls)[i].revoked.Some?
  {
    RunKeepsChains(calls);
    if Root(Run([], calls), i) == Root(Run([], calls), j) {
      LoginIsOneChain(Run([], calls), i, j);
    }
  }

  // ---- Rotation and reuse ----

  /** Rows are never removed or moved, and a revoked token never comes back. */
  lemma DoOnlyRevokes(t: Table, c: Call)
    ensures |t| <= |Do(t, c)|
    ensures forall i :: 0 <= i < |t| ==>
              && Do(t, c)[i].user == t[i].user && Do(t, c)[i].hash == t[i].hash && Do(t, c)[i].parent == t[i].parent
              && (t[i].revoked.Some? ==> Do(t, c)[i].revoked == t[i].revoked)
  {
  }

  ghost predicate HashesUnique(t: Table) {
    forall i, j :: 0 <= i < j < |t| ==> t[i].hash != t[j].hash
  }

  lemma {:induction false} RunKeepsHashes(calls: seq<Call>)
    ensures HashesUnique(Run([], calls))
  {
    if calls != [] {
      RunKeepsHashes(calls[..|calls| - 1]);
      var t := Run([], calls[..|calls| - 1]);
      DoOnlyRevokes(t, calls[|calls| - 1]);
    }
  }

  /** How often the calls rotated the token with this hash successfully. */
  function Rotations(t: Table, calls: seq<Call>, hash: string): nat {
    if calls == [] then 0
    else
      var before, c := calls[..|calls| - 1], calls[|calls| - 1];
      Rotations(t, before, hash) +
      if c.Rotate? && c.hash == hash && RotateCall(Run(t, before), hash, c.nextHash, c.now, c.expires).1.Rotated? then 1 else 0
  }

  /** No token rotates twice: after the first time it is revoked for good. */
  lemma {:induction false} RotatesAtMostOnce(calls: seq<Call>, hash: string)
    ensures Rotations([], calls, hash) <= 1
    ensures Rotations([], calls, hash) == 1 ==>
              var t := Run([], calls); Find(t, hash).Some? && t[Find(t, hash).value].revoked.Some?
  {
    if calls != [] {
      var before, c := calls[..|calls| - 1], calls[|calls| - 1];
      RotatesAtMostOnce(before, hash);
      RunKeepsHashes(before);
      RunKeepsHashes(calls);
      var t, next := Run([], before), Run([], calls);
      DoOnlyRevokes(t, c);
      if Find(t, hash).Some? {
        SameRow(t, next, hash);
      }
    }
  }

  lemma SameRow(t: Table, next: Table, hash: string)
    requires HashesUnique(next) && |t| <= |next| && Find(t, hash).Some?
    requires forall i :: 0 <= i < |t| ==> next[i].hash == t[i].hash
    ensures Find(next, hash) == Find(t, hash)
  {
  }

  predicate NoneLive(t: Table, user: nat) {
    forall i :: 0 <= i < |t| && t[i].user == user ==> t[i].revoked.Some?
  }

  /** Presenting a revoked token revokes every token of its user. */
  lemma ReuseRevokesAll(t: Table, hash: string, nextHash: string, now: int, expires: int)
    requires Find(t, hash).Some? && t[Find(t, hash).value].revoked.Some?
    ensures NoneLive(RotateCall(t, hash, nextHash, now, expires).0, t[Find(t, hash).value].user)
    ensures RotateCall(t, hash, nextHash, now, expires).1.Refused?
  {
  }

  /** And from then on the user has no live token, whatever is called, until the next login. */
  lemma {:induction false} NoneLiveUntilLogin(t: Table, calls: seq<Call>, user: nat)
    requires NoneLive(t, user)
    requires forall i :: 0 <= i < |calls| ==> !(calls[i].Login? && calls[i].user == user)
    ensures NoneLive(Run(t, calls), user)
  {
    if calls != [] {
      NoneLiveUntilLogin(t, calls[..|calls| - 1], user);
      var mid, c := Run(t, calls[..|calls| - 1]), calls[|calls| - 1];
      StaysNoneLive(mid, c, user);
    }
  }

  lemma StaysNoneLive(t: Table, c: Call, user: nat)
    requires NoneLive(t, user) && !(c.Login? && c.user == user)
    ensures NoneLive(Do(t, c), user)
  {
  }
}
