/** The move-state of the linear locals, and its join over the arms of an eliminator. */
module MoveStates {
  import opened Types

  /** `Moved` and `MaybeMoved` carry the site that consumed the value. */
  datatype MoveState = Live | Moved(site: nat) | MaybeMoved(site: nat)

  function JoinState(a: MoveState, b: MoveState): MoveState {
    match (a, b)
    case (Live, Live) => Live
    case (Moved(site), Moved(_)) => Moved(site)
    case (Moved(site), _) => MaybeMoved(site)
    case (MaybeMoved(site), _) => MaybeMoved(site)
    case (_, Moved(site)) => MaybeMoved(site)
    case (_, MaybeMoved(site)) => MaybeMoved(site)
  }

  type States = map<string, MoveState>

  ghost predicate SameLocals(arms: seq<States>) {
    forall k :: 0 <= k < |arms| ==> arms[k].Keys == arms[0].Keys
  }

  ghost predicate AllLive(arms: seq<States>, n: string) {
    forall k :: 0 <= k < |arms| ==> n in arms[k] && arms[k][n].Live?
  }

  ghost predicate AllMoved(arms: seq<States>, n: string) {
    forall k :: 0 <= k < |arms| ==> n in arms[k] && arms[k][n].Moved?
  }

  ghost predicate SiteOf(arms: seq<States>, n: string, site: nat) {
    exists k :: 0 <= k < |arms| && n in arms[k] && !arms[k][n].Live? && arms[k][n].site == site
  }

  /** A local is live after the join only if every arm left it so, and consumed only if every arm consumed it;
      otherwise it is neither usable nor disposed of. The site named is one where some arm consumed it. */
  ghost predicate NameJoin(arms: seq<States>, n: string, st: MoveState) {
    (st.Live? <==> AllLive(arms, n)) && (st.Moved? <==> AllMoved(arms, n)) && (!st.Live? ==> SiteOf(arms, n, st.site))
  }

  ghost predicate JoinOf(arms: seq<States>, r: States) {
    arms != [] && r.Keys == arms[0].Keys && forall n :: n in r ==> NameJoin(arms, n, r[n])
  }

  lemma OneJoins(arm: States)
    ensures JoinOf([arm], arm)
  {
    forall n | n in arm ensures NameJoin([arm], n, arm[n]) {
      assert [arm][0] == arm;
    }
  }

  lemma NameSnoc(arms: seq<States>, arm: States, n: string, st: MoveState)
    requires NameJoin(arms, n, st) && n in arm
    ensures NameJoin(arms + [arm], n, JoinState(st, arm[n]))
  {
    var all := arms + [arm];
    assert all[|arms|] == arm && forall k :: 0 <= k < |arms| ==> all[k] == arms[k];
    assert AllLive(all, n) <==> AllLive(arms, n) && arm[n].Live?;
    assert AllMoved(all, n) <==> AllMoved(arms, n) && arm[n].Moved?;
    if !st.Live? {
      var k :| 0 <= k < |arms| && n in arms[k] && !arms[k][n].Live? && arms[k][n].site == st.site;
      assert all[k] == arms[k] && SiteOf(all, n, st.site);
    } else if !arm[n].Live? {
      assert SiteOf(all, n, arm[n].site);
    }
  }

  method JoinAll(arms: seq<States>) returns (r: Option<States>)
    requires SameLocals(arms)
    ensures r.None? <==> arms == []
    ensures r.Some? ==> JoinOf(arms, r.value)
  {
    hide NameJoin, JoinState;
    if arms == [] { return None; }
    var joined := arms[0];
    OneJoins(arms[0]);
    assert arms[..1] == [arms[0]];
    for k := 1 to |arms|
      invariant JoinOf(arms[..k], joined)
    {
      assert arms[..k + 1] == arms[..k] + [arms[k]];
      forall n | n in joined ensures NameJoin(arms[..k + 1], n, JoinState(joined[n], arms[k][n])) {
        NameSnoc(arms[..k], arms[k], n, joined[n]);
      }
      joined := map n | n in joined :: JoinState(joined[n], arms[k][n]);
    }
    assert arms[..|arms|] == arms;
    return Some(joined);
  }
}
