/** The end-to-end encryption service as an object: each call runs to its end. */
module E2eeService {
  import opened Wrappers
  import KP = KeyPackages
  import Mls = MlsDelivery

  class Service {
    var pool: KP.Table
    var groups: map<nat, Mls.Group>
    /** The conversations with `e2ee_enabled` set. */
    var enabled: set<nat>

    constructor ()
      ensures pool == [] && groups == map[] && enabled == {}
    {
      pool, groups, enabled := [], map[], {};
    }

    /** `publishKeyPackages`: all packages of the call are added, or none. */
    method PublishKeyPackages(user: nat, device: string, suite: string, packages: seq<seq<nat>>, ttlDays: Option<int>, now: int)
      returns (r: Result<nat>)
      modifies this`pool
      ensures var a := KP.Publish(user, device, suite, packages, ttlDays);
              if 1 <= |packages| <= 100 then r == Ok(|packages|) && KP.AddsPackages(old(pool), pool, a, now)
              else r.Err? && pool == old(pool)
    {
      if |packages| == 0 { return Err("Empty pool"); }
      if |packages| > 100 { return Err("Pool too large"); }
      var expires := now + (if ttlDays.Some? then ttlDays.value else 30) * KP.DAY_MS;
      var rows: KP.Table := [];
      ghost var a := KP.Publish(user, device, suite, packages, ttlDays);
      for i := 0 to |packages|
        invariant rows == KP.Rows(a, now)[..i]
      {
        rows := rows + [KP.KeyPackage(user, device, suite, packages[i], now, expires, None)];
      }
      pool := pool + rows;
      return Ok(|packages|);
    }

    /** `claimKeyPackage`: the oldest available package is consumed, and no other row changes. */
    method ClaimKeyPackage(target: nat, requester: nat, suite: string, now: int) returns (r: Result<nat>)
      modifies this`pool
      ensures r.Err? <==> KP.ReadyRows(old(pool), target, suite, now) == {}
      ensures r.Err? ==> pool == old(pool)
      ensures r.Ok? ==>
                && r.value in KP.ReadyRows(old(pool), target, suite, now)
                && (forall i :: i in KP.ReadyRows(old(pool), target, suite, now) ==> old(pool)[r.value].createdAt <= old(pool)[i].createdAt)
                && pool == old(pool)[r.value := old(pool)[r.value].(consumed := Some(KP.Claim(requester, now)))]
    {
      var best: Option<nat> := None;
      for i := 0 to |pool|
        invariant best.Some? ==> best.value < i && KP.Available(pool[best.value], target, suite, now)
        invariant forall j :: 0 <= j < i && KP.Available(pool[j], target, suite, now) ==>
                    best.Some? && pool[best.value].createdAt <= pool[j].createdAt
      {
        if KP.Available(pool[i], target, suite, now) && (best.None? || pool[i].createdAt < pool[best.value].createdAt) {
          best := Some(i);
        }
      }
      assert best.Some? <==> KP.ReadyRows(pool, target, suite, now) != {} by {
        if best.Some? { assert best.value in KP.ReadyRows(pool, target, suite, now); }
      }
      if best.None? { return Err("Aucun KeyPackage disponible pour ce user"); }
      pool := pool[best.value := pool[best.value].(consumed := Some(KP.Claim(requester, now)))];
      return Ok(best.value);
    }

    /** `countAvailable` */
    method CountAvailable(user: nat, suite: string, now: int) returns (n: nat)
      ensures n == |KP.ReadyRows(pool, user, suite, now)|
    {
      KP.ReadyMeans(pool, user, suite, now);
      n := 0;
      for i := 0 to |pool|
        invariant n == KP.Count(pool[..i], user, suite, now, KP.Ready)
      {
        assert pool[..i + 1][..i] == pool[..i];
        if KP.Available(pool[i], user, suite, now) { n := n + 1; }
      }
      assert pool[..|pool|] == pool;
    }

    /** `enableE2ee`, past the access check: a conversation gets at most one group, and the flag with it.
        A flag without a group, or a group without a flag, would be refused too. */
    method EnableE2ee(conv: nat, actor: nat, welcomes: seq<Mls.WelcomeInput>) returns (r: Result<()>)
      modifies this`groups, this`enabled
      ensures r.Ok? <==> conv !in old(enabled) && conv !in old(groups)
      ensures r.Err? ==> groups == old(groups) && enabled == old(enabled)
      ensures r.Ok? ==>
                && groups.Keys == old(groups).Keys + {conv} && enabled == old(enabled) + {conv}
                && (forall c :: c in old(groups) ==> groups[c] == old(groups)[c])
                && groups[conv].epoch == 0 && Mls.StartsWith(groups[conv].messages, actor, welcomes)
                && Mls.GroupOk(groups[conv], groups[conv].messages)
      ensures old(enabled == groups.Keys) ==> enabled == groups.Keys
    {
      if conv in enabled { return Err("Déjà E2EE"); }
      if conv in groups { return Err("QueryFailedError"); }
      var saved := Mls.SaveWelcomes(actor, welcomes);
      Mls.WelcomesHaveNoCommit(saved);
      groups := groups[conv := Mls.Group(0, saved)];
      enabled := enabled + {conv};
      return Ok(());
    }

    /** `sendMlsMessage`, past the access check. */
    method SendMlsMessage(input: Mls.SendInput, ghost initial: seq<Mls.MlsMessage>) returns (r: Result<nat>)
      requires input.conv in groups ==> Mls.GroupOk(groups[input.conv], initial)
      modifies this`groups
      ensures input.conv !in old(groups) ==> r.Err? && groups == old(groups)
      ensures input.conv in old(groups) ==>
                && input.conv in groups && Mls.GroupOk(groups[input.conv], initial)
                && r == Ok(|old(groups)[input.conv].messages| + 1)
                && Mls.Adds(old(groups)[input.conv], groups[input.conv], input)
                && groups.Keys == old(groups).Keys && forall c :: c in groups && c != input.conv ==> groups[c] == old(groups)[c]
    {
      if input.conv !in groups { return Err("Pas de groupe MLS"); }
      var g := groups[input.conv];
      var next := Mls.MaxSeq(g.messages) + 1;
      Mls.MaxIsCount(g.messages);
      Mls.AppendOk(g, initial, input);
      var epoch := if input.kind == Mls.CommitKind then g.epoch + 1 else g.epoch;
      groups := groups[input.conv := Mls.Group(epoch, g.messages + [Mls.MessageOf(input, next)])];
      return Ok(next);
    }
  }
}
