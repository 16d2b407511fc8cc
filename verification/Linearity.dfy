/** What the move-states promise about execution: along every path through the arms that ran, a linear local is
    read at most once while it is in scope, and exactly once if it leaves consumed. */
module Linearity {
  import opened Types
  import opened MoveStates

  /** One event of a walk: a local is read, comes into scope or leaves it, or control goes through one of several
      arms, of which `ends` are the move-states they leave. */
  datatype Event =
    | Read(name: string, site: nat)
    | Enter(name: string, linear: bool)
    | Exit(name: string)
    | Branch(arms: seq<Trail>, ends: seq<States>)

  /** A walk with the move-state before each event. */
  datatype Trail = Nowhere | On(before: Trail, at: States, last: Event)

  /** The checker lets `e` take the move-state from `m` to `m2`. */
  ghost predicate Steps(m: States, e: Event, m2: States)
    decreases e, 0
  {
    match e
    case Read(x, site) => if x in m then m[x].Live? && m2 == m[x := Moved(site)] else m2 == m
    case Enter(x, linear) => x !in m && m2 == if linear then m[x := Live] else m
    case Exit(x) => m2.Keys == m.Keys - {x} && forall n :: n in m2 ==> m2[n] == m[n]
    case Branch(arms, ends) =>
      && |ends| == |arms|
      && (forall k :: 0 <= k < |arms| ==> Accepted(m, arms[k], ends[k]) && ends[k].Keys == m.Keys)
      && if arms == [] then m2 == m else JoinOf(ends, m2)
  }

  ghost predicate Accepted(m: States, t: Trail, m2: States)
    decreases t, 1
  {
    match t
    case Nowhere => m2 == m
    case On(before, at, e) => Accepted(m, before, at) && Steps(at, e, m2)
  }

  /** `es` is what happens, in order, on one path along the trail: of every branch, one arm. */
  ghost predicate Executes(t: Trail, es: seq<Event>)
    decreases t
  {
    match t
    case Nowhere => es == []
    case On(before, _, e) =>
      if e.Branch? then
        if e.arms == [] then Executes(before, es)
        else
          exists k, cut :: 0 <= k < |e.arms| && 0 <= cut <= |es| && Executes(before, es[..cut]) &&
            Executes(e.arms[k], es[cut..])
      else es != [] && es[|es| - 1] == e && Executes(before, es[..|es| - 1])
  }

  /** How often `x` has been read since it came into scope with a linear value; nothing if it is no such local. */
  function Reads(es: seq<Event>, x: string): Option<nat> {
    if es == [] then None
    else
      var before := Reads(es[..|es| - 1], x);
      match es[|es| - 1]
      case Read(y, _) => if y == x && before.Some? then Some(before.value + 1) else before
      case Enter(y, linear) => if y != x then before else if linear then Some(0) else None
      case Exit(y) => if y == x then None else before
      case Branch(_, _) => before
  }

  /** What the move-state knows about the reads of `x`. */
  predicate Agrees(m: States, x: string, count: Option<nat>) {
    if x !in m then count.None?
    else
      count.Some? &&
      match m[x]
      case Live => count.value == 0
      case Moved(_) => count.value == 1
      case MaybeMoved(_) => count.value <= 1
  }

  /** At no point of a path has `x` been read twice. */
  ghost predicate NeverTwice(es0: seq<Event>, es: seq<Event>, x: string) {
    forall k :: 0 <= k <= |es| ==> Reads(es0 + es[..k], x) in {None, Some(0), Some(1)}
  }

  lemma OneStep(m: States, e: Event, m2: States, es: seq<Event>, x: string)
    requires !e.Branch? && Steps(m, e, m2) && Agrees(m, x, Reads(es, x))
    ensures Agrees(m2, x, Reads(es + [e], x))
  {
    assert (es + [e])[..|es|] == es;
  }

  lemma JoinAgrees(ends: seq<States>, m2: States, k: nat, x: string, count: Option<nat>)
    requires JoinOf(ends, m2) && k < |ends| && ends[k].Keys == ends[0].Keys && Agrees(ends[k], x, count)
    ensures Agrees(m2, x, count)
  {
    if x in m2 { assert NameJoin(ends, x, m2[x]); }
  }

  /** Along an accepted trail the move-state agrees with every path, and no path reads a local twice. */
  lemma {:induction false} PathsAgree(m: States, t: Trail, m2: States, es0: seq<Event>, es: seq<Event>, x: string)
    requires Accepted(m, t, m2) && Executes(t, es) && Agrees(m, x, Reads(es0, x))
    ensures Agrees(m2, x, Reads(es0 + es, x)) && NeverTwice(es0, es, x)
    decreases t
  {
    hide Reads, Agrees, Steps;
    match t
    case Nowhere =>
      assert es0 + es == es0;
      assert forall k :: 0 <= k <= |es| ==> es0 + es[..k] == es0;
      AgreesIsFew(m, x, Reads(es0, x));
    case On(before, at, e) =>
      if e.Branch? {
        BranchAgrees(m, t, m2, es0, es, x);
      } else {
        var first := es[..|es| - 1];
        PathsAgree(m, before, at, es0, first, x);
        OneStep(at, e, m2, es0 + first, x);
        assert es0 + es == es0 + first + [e];
        AgreesIsFew(m2, x, Reads(es0 + es, x));
        NeverTwiceSnoc(es0, es, x);
      }
  }

  lemma AgreesIsFew(m: States, x: string, count: Option<nat>)
    requires Agrees(m, x, count)
    ensures count in {None, Some(0), Some(1)}
  {
  }

  lemma NeverTwiceSnoc(es0: seq<Event>, es: seq<Event>, x: string)
    requires es != [] && NeverTwice(es0, es[..|es| - 1], x) && Reads(es0 + es, x) in {None, Some(0), Some(1)}
    ensures NeverTwice(es0, es, x)
  {
    hide Reads;
    forall k | 0 <= k <= |es| ensures Reads(es0 + es[..k], x) in {None, Some(0), Some(1)} {
      if k < |es| { assert es[..|es| - 1][..k] == es[..k]; } else { assert es[..k] == es; }
    }
  }

  lemma {:induction false} BranchAgrees(m: States, t: Trail, m2: States, es0: seq<Event>, es: seq<Event>, x: string)
    requires t.On? && t.last.Branch?
    requires Accepted(m, t, m2) && Executes(t, es) && Agrees(m, x, Reads(es0, x))
    ensures Agrees(m2, x, Reads(es0 + es, x)) && NeverTwice(es0, es, x)
    decreases t, 0
  {
    hide Reads, Agrees;
    var e := t.last;
    if e.arms == [] {
      PathsAgree(m, t.before, t.at, es0, es, x);
    } else {
      var k, cut :| 0 <= k < |e.arms| && 0 <= cut <= |es| && Executes(t.before, es[..cut]) &&
        Executes(e.arms[k], es[cut..]);
      PathsAgree(m, t.before, t.at, es0, es[..cut], x);
      PathsAgree(t.at, e.arms[k], e.ends[k], es0 + es[..cut], es[cut..], x);
      assert es0 + es[..cut] + es[cut..] == es0 + es;
      JoinAgrees(e.ends, m2, k, x, Reads(es0 + es, x));
      NeverTwiceJoined(es0, es, cut, x);
    }
  }

  lemma NeverTwiceJoined(es0: seq<Event>, es: seq<Event>, cut: nat, x: string)
    requires cut <= |es| && NeverTwice(es0, es[..cut], x) && NeverTwice(es0 + es[..cut], es[cut..], x)
    ensures NeverTwice(es0, es, x)
  {
    hide Reads;
    forall k | 0 <= k <= |es| ensures Reads(es0 + es[..k], x) in {None, Some(0), Some(1)} {
      if k <= cut {
        assert es[..cut][..k] == es[..k];
      } else {
        assert es0 + es[..cut] + es[cut..][..k - cut] == es0 + es[..k];
      }
    }
  }

  // ---------------------------------------------------------------- the laws

  /** Two reads of a linear local on one path: it has left its scope in between, or come into one. */
  lemma ReadAtMostOnce(t: Trail, m: States, es: seq<Event>, x: string, i: nat, j: nat)
    requires Accepted(map[], t, m) && Executes(t, es) && i < j < |es|
    requires es[i].Read? && es[j].Read? && es[i].name == es[j].name == x && Reads(es[..i], x).Some?
    ensures exists k :: i < k < j && (es[k] == Exit(x) || (es[k].Enter? && es[k].name == x))
  {
    hide Accepted, Executes;
    assert Reads([], x) == None && Agrees(map[], x, None);
    PathsAgree(map[], t, m, [], es, x);
    assert [] + es[..j + 1] == es[..j + 1];
    assert Reads(es[..j + 1], x) in {None, Some(0), Some(1)};
    if forall k :: i < k < j ==> es[k] != Exit(x) && !(es[k].Enter? && es[k].name == x) {
      ReadsCount(es, x, i, j);
    }
  }

  lemma {:induction false} ReadsCount(es: seq<Event>, x: string, i: nat, j: nat)
    requires i < j < |es| && es[i].Read? && es[i].name == x && es[j].Read? && es[j].name == x
    requires Reads(es[..i], x).Some? && forall k :: i < k < j ==> es[k] != Exit(x) && !(es[k].Enter? && es[k].name == x)
    ensures Reads(es[..j + 1], x).Some? && Reads(es[..j + 1], x).value >= 2
  {
    assert es[..i + 1][..i] == es[..i];
    ReadsStay(es, x, i + 1, j);
    assert es[..j + 1][..j] == es[..j];
  }

  lemma {:induction false} ReadsStay(es: seq<Event>, x: string, i: nat, j: nat)
    requires i <= j <= |es| && Reads(es[..i], x).Some?
    requires forall k :: i <= k < j ==> es[k] != Exit(x) && !(es[k].Enter? && es[k].name == x)
    ensures Reads(es[..j], x).Some? && Reads(es[..j], x).value >= Reads(es[..i], x).value
  {
    if i < j {
      ReadsStay(es, x, i, j - 1);
      assert es[..j][..j - 1] == es[..j - 1];
    }
  }

  /** A linear local that is consumed was read exactly once, whatever path was taken; one that is still live on no
      path at all. */
  lemma ConsumedIsReadOnce(t: Trail, m: States, es: seq<Event>, x: string)
    requires Accepted(map[], t, m) && Executes(t, es)
    ensures x in m <==> Reads(es, x).Some?
    ensures x in m && m[x].Moved? ==> Reads(es, x) == Some(1)
    ensures x in m && m[x].Live? ==> Reads(es, x) == Some(0)
  {
    hide Accepted, Executes;
    assert Reads([], x) == None && Agrees(map[], x, None);
    PathsAgree(map[], t, m, [], es, x);
    assert [] + es == es;
  }

  // ---------------------------------------------------------------- binding and leaving

  /** The trail after several names came into scope. */
  ghost function EnterAll(t: Trail, m: States, names: seq<string>, linear: seq<bool>): (r: (Trail, States))
    requires |names| == |linear|
    decreases |names|
  {
    if names == [] then (t, m)
    else
      var k := |names| - 1;
      var before := EnterAll(t, m, names[..k], linear[..k]);
      (On(before.0, before.1, Enter(names[k], linear[k])), if linear[k] then before.1[names[k] := Live] else before.1)
  }

  lemma {:induction false} EnterAllAccepted(m0: States, t: Trail, m: States, names: seq<string>, linear: seq<bool>)
    requires |names| == |linear| && Accepted(m0, t, m) && Distinct(names)
    requires forall i :: 0 <= i < |names| ==> names[i] !in m
    ensures var r := EnterAll(t, m, names, linear);
            Accepted(m0, r.0, r.1) && r.1.Keys <= m.Keys + (set n | n in names)
    decreases |names|
  {
    if names != [] {
      var k := |names| - 1;
      EnterAllAccepted(m0, t, m, names[..k], linear[..k]);
      assert names[k] !in names[..k];
    }
  }

  ghost function ExitAll(t: Trail, m: States, names: seq<string>): (r: (Trail, States))
    decreases |names|
  {
    if names == [] then (t, m)
    else
      var k := |names| - 1;
      var before := ExitAll(t, m, names[..k]);
      (On(before.0, before.1, Exit(names[k])), map n | n in before.1 && n != names[k] :: before.1[n])
  }

  lemma {:induction false} ExitAllAccepted(m0: States, t: Trail, m: States, names: seq<string>)
    requires Accepted(m0, t, m)
    ensures var r := ExitAll(t, m, names);
            Accepted(m0, r.0, r.1) && r.1 == map n | n in m && n !in names :: m[n]
    decreases |names|
  {
    if names != [] {
      var k := |names| - 1;
      ExitAllAccepted(m0, t, m, names[..k]);
      assert forall n :: n in names <==> n in names[..k] || n == names[k];
      hide Accepted, Steps;
      ExitOne(m0, ExitAll(t, m, names[..k]).0, ExitAll(t, m, names[..k]).1, names[k]);
    }
  }

  lemma ExitOne(m0: States, t: Trail, m: States, x: string)
    requires Accepted(m0, t, m)
    ensures Accepted(m0, On(t, m, Exit(x)), map n | n in m && n != x :: m[n])
  {
  }
}
