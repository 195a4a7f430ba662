/** The address lists of the connector: interleaving by family, popping what failed, and the reconnect loop. */
module Addresses {
  import opened Dicts
  import opened Wrappers

  /** A resolved address; `addr` stands for the socket address. */
  datatype AddrInfo = AddrInfo(family: nat, addr: nat)

  /** The addresses of one family, in order. */
  function FamilyOf(s: seq<AddrInfo>, f: nat): seq<AddrInfo> {
    if s == [] then [] else FamilyOf(s[..|s| - 1], f) + (if s[|s| - 1].family == f then [s[|s| - 1]] else [])
  }

  function Count(s: seq<AddrInfo>, f: nat): nat {
    |FamilyOf(s, f)|
  }

  lemma FamilySnoc(s: seq<AddrInfo>, x: AddrInfo, f: nat)
    ensures FamilyOf(s + [x], f) == FamilyOf(s, f) + (if x.family == f then [x] else [])
  {
    assert (s + [x])[..|s|] == s;
  }

  lemma {:induction false} FamilyConcat(a: seq<AddrInfo>, b: seq<AddrInfo>, f: nat)
    ensures FamilyOf(a + b, f) == FamilyOf(a, f) + FamilyOf(b, f)
  {
    if b == [] {
      assert a + b == a;
    } else {
      FamilyConcat(a, b[..|b| - 1], f);
      assert (a + b)[..|a + b| - 1] == a + b[..|b| - 1];
    }
  }

  lemma {:induction false} FamilyMembers(s: seq<AddrInfo>, f: nat, x: AddrInfo)
    ensures x in FamilyOf(s, f) <==> x in s && x.family == f
    ensures multiset(FamilyOf(s, f))[x] == if x.family == f then multiset(s)[x] else 0
  {
    if s != [] {
      assert s == s[..|s| - 1] + [s[|s| - 1]];
      FamilyMembers(s[..|s| - 1], f, x);
    }
  }

  /** Lists that agree family by family hold the same addresses the same number of times. */
  lemma SameFamiliesPermute(a: seq<AddrInfo>, b: seq<AddrInfo>)
    requires forall f :: FamilyOf(a, f) == FamilyOf(b, f)
    ensures multiset(a) == multiset(b)
  {
    forall x ensures multiset(a)[x] == multiset(b)[x] {
      FamilyMembers(a, x.family, x);
      FamilyMembers(b, x.family, x);
    }
  }

  /** What popping leaves: an address stays when at least `k` of its family come before it. */
  function Kept(s: seq<AddrInfo>, k: int): seq<AddrInfo> {
    if s == [] then []
    else
      var t, x := s[..|s| - 1], s[|s| - 1];
      Kept(t, k) + (if Count(t, x.family) >= k then [x] else [])
  }

  /** What popping picks: the first `k` of every family. */
  function Picked(s: seq<AddrInfo>, k: int): seq<AddrInfo> {
    if s == [] then []
    else
      var t, x := s[..|s| - 1], s[|s| - 1];
      Picked(t, k) + (if Count(t, x.family) < k then [x] else [])
  }

  /** `list.remove` for each item in turn. */
  function RemoveEach(s: seq<AddrInfo>, xs: seq<AddrInfo>): seq<AddrInfo>
    decreases |xs|
  {
    if xs == [] then s else RemoveEach(Without(s, xs[0]), xs[1..])
  }

  lemma {:induction false} WithoutSnoc(s: seq<AddrInfo>, x: AddrInfo, y: AddrInfo)
    ensures y in s ==> Without(s + [x], y) == Without(s, y) + [x]
    ensures y !in s ==> Without(s + [x], y) == if x == y then s else s + [x]
  {
    if s == [] {
      assert s + [x] == [x];
    } else {
      assert (s + [x])[1..] == s[1..] + [x];
      if s[0] != y {
        WithoutSnoc(s[1..], x, y);
        assert y in s <==> y in s[1..];
      }
    }
  }

  lemma {:induction false} WithoutCount(s: seq<AddrInfo>, y: AddrInfo)
    requires y in s
    ensures multiset(Without(s, y)) == multiset(s) - multiset{y}
  {
    assert s == [s[0]] + s[1..];
    if s[0] != y {
      WithoutCount(s[1..], y);
    }
  }

  lemma {:induction false} RemoveEachSnoc(s: seq<AddrInfo>, x: AddrInfo, xs: seq<AddrInfo>)
    requires multiset(xs) <= multiset(s)
    ensures RemoveEach(s + [x], xs) == RemoveEach(s, xs) + [x]
    decreases |xs|
  {
    if xs != [] {
      assert xs == [xs[0]] + xs[1..];
      assert multiset(xs)[xs[0]] > 0;
      assert xs[0] in s;
      WithoutSnoc(s, x, xs[0]);
      WithoutCount(s, xs[0]);
      RemoveEachSnoc(Without(s, xs[0]), x, xs[1..]);
    }
  }

  lemma {:induction false} RemoveEachThen(s: seq<AddrInfo>, xs: seq<AddrInfo>, x: AddrInfo)
    ensures RemoveEach(s, xs + [x]) == Without(RemoveEach(s, xs), x)
    decreases |xs|
  {
    if xs == [] {
      assert xs + [x] == [x];
      assert RemoveEach(Without(s, x), []) == Without(s, x);
    } else {
      assert (xs + [x])[1..] == xs[1..] + [x];
      RemoveEachThen(Without(s, xs[0]), xs[1..], x);
    }
  }

  lemma {:induction false} PickedAreThere(s: seq<AddrInfo>, k: int)
    ensures multiset(Picked(s, k)) <= multiset(s)
  {
    hide Count, FamilyOf;
    if s != [] {
      var t, x := s[..|s| - 1], s[|s| - 1];
      PickedAreThere(t, k);
      assert s == t + [x];
      assert Picked(s, k) == Picked(t, k) + [x] || Picked(s, k) == Picked(t, k) + [];
      assert Picked(t, k) + [] == Picked(t, k);
    }
  }

  /** While fewer than `k` of a family have come, none of it is kept. */
  lemma {:induction false} FewMeansNoneKept(s: seq<AddrInfo>, k: int, f: nat)
    requires Count(s, f) <= k
    ensures forall x :: x in Kept(s, k) ==> x.family != f
  {
    if s != [] {
      FewMeansNoneKept(s[..|s| - 1], k, f);
    }
  }

  /** Removing the picked addresses one by one, each by its first equal occurrence, leaves exactly the kept ones. */
  lemma {:induction false} RemovingPickedKeeps(s: seq<AddrInfo>, k: int)
    ensures RemoveEach(s, Picked(s, k)) == Kept(s, k)
  {
    hide Count, Without, FamilyOf;
    if s != [] {
      var t, x := s[..|s| - 1], s[|s| - 1];
      assert s == t + [x];
      RemovingPickedKeeps(t, k);
      PickedAreThere(t, k);
      RemoveEachSnoc(t, x, Picked(t, k));
      assert Kept(t, k) + [] == Kept(t, k) && Picked(t, k) + [] == Picked(t, k);
      if Count(t, x.family) < k {
        RemoveEachThen(s, Picked(t, k), x);
        FewMeansNoneKept(t, k, x.family);
        assert x !in Kept(t, k);
        WithoutSnoc(Kept(t, k), x, x);
      }
    }
  }

  /** Popping drops the first `k` of every family and keeps the rest of it in order. */
  lemma {:induction false} KeptByFamily(s: seq<AddrInfo>, k: int, f: nat)
    requires k >= 0
    ensures FamilyOf(Kept(s, k), f) == if Count(s, f) <= k then [] else FamilyOf(s, f)[k..]
  {
    if s != [] {
      var t, x := s[..|s| - 1], s[|s| - 1];
      KeptByFamily(t, k, f);
      var a, b := FamilyOf(t, f), FamilyOf(Kept(t, k), f);
      FamilySnoc(Kept(t, k), x, f);
      assert a + [] == a && b + [] == b && Kept(t, k) + [] == Kept(t, k);
      if |a| >= k {
        assert (a + [x])[k..] == a[k..] + [x];
        assert a[k..] + [] == a[k..];
      }
    }
  }

  lemma {:induction false} KeptNoLonger(s: seq<AddrInfo>, k: int)
    ensures |Kept(s, k)| <= |s| && (k <= 0 ==> Kept(s, k) == s)
  {
    if s != [] {
      KeptNoLonger(s[..|s| - 1], k);
      assert s == s[..|s| - 1] + [s[|s| - 1]];
    }
  }

  lemma {:induction false} KeptShorter(s: seq<AddrInfo>, k: int)
    requires s != [] && k >= 1
    ensures |Kept(s, k)| < |s|
  {
    var t := s[..|s| - 1];
    if t == [] {
      assert Count(t, s[0].family) == 0;
      assert Kept(t, k) == [];
    } else {
      KeptShorter(t, k);
    }
  }

  /** The interleave argument of `pop_addr_infos_interleave`. */
  function Popped(interleave: Option<int>): int {
    if interleave.None? then 1 else interleave.value
  }

  predicate Positive(interleave: Option<int>) {
    interleave.None? || interleave.value >= 1
  }

  /** A failed pass shortens a nonempty list exactly when the interleave is unset or at least 1; otherwise it leaves
      the list as it is, and the reconnect loop would not end. */
  lemma PopShortensIffPositive(s: seq<AddrInfo>, interleave: Option<int>)
    requires s != []
    ensures |Kept(s, Popped(interleave))| < |s| <==> Positive(interleave)
    ensures !Positive(interleave) ==> Kept(s, Popped(interleave)) == s
  {
    KeptNoLonger(s, Popped(interleave));
    if Popped(interleave) >= 1 {
      KeptShorter(s, Popped(interleave));
    }
  }

  /** The addresses equal to `addr`, in order. */
  function Matching(s: seq<AddrInfo>, canon: nat -> nat, addr: nat): seq<AddrInfo> {
    if s == [] then []
    else Matching(s[..|s| - 1], canon, addr) + (if canon(s[|s| - 1].addr) == canon(addr) then [s[|s| - 1]] else [])
  }

  function Unmatched(s: seq<AddrInfo>, canon: nat -> nat, addr: nat): seq<AddrInfo> {
    if s == [] then []
    else Unmatched(s[..|s| - 1], canon, addr) + (if canon(s[|s| - 1].addr) == canon(addr) then [] else [s[|s| - 1]])
  }

  lemma {:induction false} UnmatchedMembers(s: seq<AddrInfo>, canon: nat -> nat, addr: nat)
    ensures forall x :: x in Unmatched(s, canon, addr) ==> canon(x.addr) != canon(addr)
    ensures multiset(Matching(s, canon, addr)) <= multiset(s)
    ensures |Matching(s, canon, addr)| + |Unmatched(s, canon, addr)| == |s|
  {
    if s != [] {
      UnmatchedMembers(s[..|s| - 1], canon, addr);
      assert s == s[..|s| - 1] + [s[|s| - 1]];
    }
  }

  /** Removing every match leaves exactly the addresses that do not match, in order. */
  lemma {:induction false} RemovingMatches(s: seq<AddrInfo>, canon: nat -> nat, addr: nat)
    ensures RemoveEach(s, Matching(s, canon, addr)) == Unmatched(s, canon, addr)
  {
    if s != [] {
      var t, x := s[..|s| - 1], s[|s| - 1];
      assert s == t + [x];
      RemovingMatches(t, canon, addr);
      UnmatchedMembers(t, canon, addr);
      RemoveEachSnoc(t, x, Matching(t, canon, addr));
      var kept, bad := Unmatched(t, canon, addr), Matching(t, canon, addr);
      assert kept + [] == kept && bad + [] == bad;
      if canon(x.addr) == canon(addr) {
        RemoveEachThen(s, bad, x);
        assert x !in kept;
        WithoutSnoc(Unmatched(t, canon, addr), x, x);
      }
    }
  }

  /** What one pass of the reconnect loop came to. */
  datatype Pass = Connected | ConnectError | Mismatch(peer: nat)

  /** Where the loop stands after some passes: connected, out of addresses, a peer not found, or still trying. */
  datatype Result = Done(tries: nat) | Exhausted(tries: nat) | NotFound(tries: nat) | Trying

  /** What removing a bad peer leaves: the equal tuples go, or, when there are none, the tuples that denote the same
      address; with neither the removal raises. */
  function WithoutPeer(s: seq<AddrInfo>, canon: nat -> nat, addr: nat): Option<seq<AddrInfo>> {
    var same := (x: nat) => x;
    if Matching(s, same, addr) != [] then Some(Unmatched(s, same, addr))
    else if Matching(s, canon, addr) != [] then Some(Unmatched(s, canon, addr))
    else None
  }

  lemma {:induction false} UnmatchedIs(s: seq<AddrInfo>, canon: nat -> nat, addr: nat)
    ensures Unmatched(s, canon, addr) == Filter(s, (x: AddrInfo) => canon(x.addr) != canon(addr))
  {
    if s != [] {
      var n := |s| - 1;
      UnmatchedIs(s[..n], canon, addr);
      FilterSnoc(s[..n], s[n], (x: AddrInfo) => canon(x.addr) != canon(addr));
      assert s == s[..n] + [s[n]];
    }
  }

  lemma {:induction false} MatchingIsNone(s: seq<AddrInfo>, canon: nat -> nat, addr: nat)
    ensures Matching(s, canon, addr) == [] <==> forall i :: 0 <= i < |s| ==> canon(s[i].addr) != canon(addr)
  {
    if s != [] {
      var n := |s| - 1;
      MatchingIsNone(s[..n], canon, addr);
      assert forall k :: 0 <= k < n ==> s[k] == s[..n][k];
    }
  }

  /** Removing a bad peer takes out the addresses equal to it, if there is any, and otherwise those that denote the same
      address; the others stay in order; and it raises if and only if there is none of either. */
  lemma WithoutPeerExactly(s: seq<AddrInfo>, canon: nat -> nat, addr: nat)
    ensures WithoutPeer(s, canon, addr) ==
      if exists i :: 0 <= i < |s| && s[i].addr == addr then Some(Filter(s, (x: AddrInfo) => x.addr != addr))
      else if exists i :: 0 <= i < |s| && canon(s[i].addr) == canon(addr) then
        Some(Filter(s, (x: AddrInfo) => canon(x.addr) != canon(addr)))
      else None
  {
    var same := (x: nat) => x;
    MatchingIsNone(s, same, addr);
    MatchingIsNone(s, canon, addr);
    UnmatchedIs(s, same, addr);
    UnmatchedIs(s, canon, addr);
    SameFilter(s, (x: AddrInfo) => same(x.addr) != same(addr), (x: AddrInfo) => x.addr != addr);
  }

  lemma {:induction false} SameFilter(s: seq<AddrInfo>, p: AddrInfo -> bool, q: AddrInfo -> bool)
    requires forall x :: p(x) == q(x)
    ensures Filter(s, p) == Filter(s, q)
  {
    if s != [] {
      SameFilter(s[1..], p, q);
    }
  }

  lemma WithoutPeerShortens(s: seq<AddrInfo>, canon: nat -> nat, addr: nat)
    ensures WithoutPeer(s, canon, addr).Some? ==> |WithoutPeer(s, canon, addr).value| < |s|
  {
    UnmatchedMembers(s, (x: nat) => x, addr);
    UnmatchedMembers(s, canon, addr);
  }

  /** The reconnect loop as a function of the passes that were made so far: where it stands, and the list it leaves. */
  function Tried(s: seq<AddrInfo>, interleave: Option<int>, canon: nat -> nat, passes: seq<Pass>,
    tries: nat): (Result, seq<AddrInfo>)
    requires tries <= |passes|
    decreases |passes| - tries
  {
    if s == [] then (Exhausted(tries), s)
    else if tries == |passes| then (Trying, s)
    else
      match passes[tries]
      case Connected => (Done(tries), s)
      case ConnectError => Tried(Kept(s, Popped(interleave)), interleave, canon, passes, tries + 1)
      case Mismatch(peer) =>
        match WithoutPeer(s, canon, peer)
        case None => (NotFound(tries), s)
        case Some(rest) => Tried(rest, interleave, canon, passes, tries + 1)
  }

  /** Where the loop ends, it is at the first pass that connects, at a peer that is not in the list, or with the list
      used up after passes that all failed; with a positive interleave it ends within as many passes as there were
      addresses. */
  lemma {:induction false} ReconnectEnds(s: seq<AddrInfo>, interleave: Option<int>, canon: nat -> nat,
    passes: seq<Pass>, tries: nat)
    requires tries <= |passes|
    ensures var (r, left) := Tried(s, interleave, canon, passes, tries);
      match r
      case Done(n) => tries <= n < |passes| && passes[n] == Connected && left != []
                      && (forall i :: tries <= i < n ==> passes[i] != Connected)
                      && (Positive(interleave) ==> n < tries + |s|)
      case Exhausted(n) => tries <= n <= |passes| && left == []
                      && (forall i :: tries <= i < n ==> passes[i] != Connected)
                      && (Positive(interleave) ==> n <= tries + |s|)
      case NotFound(n) => tries <= n < |passes| && passes[n].Mismatch? && WithoutPeer(left, canon, passes[n].peer).None?
                      && (forall i :: tries <= i < n ==> passes[i] != Connected)
                      && (Positive(interleave) ==> n < tries + |s|)
      case Trying => left != [] && (forall i :: tries <= i < |passes| ==> passes[i] != Connected)
                      && (Positive(interleave) ==> |passes| < tries + |s|)
    decreases |passes| - tries
  {
    hide Matching, Unmatched, Kept, WithoutPeer, Popped;
    if s != [] && tries < |passes| {
      match passes[tries] {
        case Connected =>
        case ConnectError =>
          PopShortensIffPositive(s, interleave);
          ReconnectEnds(Kept(s, Popped(interleave)), interleave, canon, passes, tries + 1);
        case Mismatch(peer) =>
          WithoutPeerShortens(s, canon, peer);
          if WithoutPeer(s, canon, peer).Some? {
            ReconnectEnds(WithoutPeer(s, canon, peer).value, interleave, canon, passes, tries + 1);
          }
      }
    }
  }

  function Failures(n: nat): (r: seq<Pass>)
    ensures |r| == n && forall i :: 0 <= i < n ==> r[i] == ConnectError
  {
    seq(n, i => ConnectError)
  }

  lemma {:induction false} FailuresChangeNothing(s: seq<AddrInfo>, interleave: Option<int>, canon: nat -> nat,
    passes: seq<Pass>, tries: nat)
    requires s != [] && !Positive(interleave) && tries <= |passes|
    requires forall i :: 0 <= i < |passes| ==> passes[i] == ConnectError
    ensures Tried(s, interleave, canon, passes, tries) == (Trying, s)
    decreases |passes| - tries
  {
    hide Kept;
    if tries < |passes| {
      PopShortensIffPositive(s, interleave);
      FailuresChangeNothing(s, interleave, canon, passes, tries + 1);
    }
  }

  /** The loop ends for all passes, once there are as many as addresses, if and only if the interleave is positive: with
      any other, failing connects change nothing and it tries for ever. */
  lemma ReconnectEndsIffPositive(s: seq<AddrInfo>, interleave: Option<int>, canon: nat -> nat)
    requires s != []
    ensures (forall passes: seq<Pass> :: |passes| >= |s| ==> !Tried(s, interleave, canon, passes, 0).0.Trying?)
       <==> Positive(interleave)
  {
    if Positive(interleave) {
      forall passes: seq<Pass> | |passes| >= |s| ensures !Tried(s, interleave, canon, passes, 0).0.Trying? {
        ReconnectEnds(s, interleave, canon, passes, 0);
      }
    } else {
      var passes := Failures(|s|);
      FailuresChangeNothing(s, interleave, canon, passes, 0);
      assert |passes| >= |s| && Tried(s, interleave, canon, passes, 0).0.Trying?;
    }
  }

  lemma NothingPicked(k: int)
    ensures Picked([], k) == [] && forall f :: Count([], f) == 0
  {
  }

  lemma PickedNext(s: seq<AddrInfo>, i: nat, k: int)
    requires i < |s|
    ensures Picked(s[..i + 1], k) == Picked(s[..i], k) + (if Count(s[..i], s[i].family) < k then [s[i]] else [])
    ensures forall f :: Count(s[..i + 1], f) == Count(s[..i], f) + (if s[i].family == f then 1 else 0)
  {
    assert s[..i + 1][..i] == s[..i];
    forall f ensures Count(s[..i + 1], f) == Count(s[..i], f) + (if s[i].family == f then 1 else 0) {
      FamilySnoc(s[..i], s[i], f);
      assert s[..i] + [s[i]] == s[..i + 1];
    }
  }

  class AddrList {
    var items: seq<AddrInfo>

    constructor (items: seq<AddrInfo>)
      ensures this.items == items
    {
      this.items := items;
    }

    method PopInterleave(interleave: Option<int>)
      modifies this
      ensures items == Kept(old(items), match interleave case None => 1 case Some(k) => k)
    {
      hide Kept, RemoveEach, Picked, Count;
      NothingPicked(if interleave.None? then 1 else interleave.value);
      var seen: map<nat, int> := map[];
      var k := if interleave.None? then 1 else interleave.value;
      var toRemove: seq<AddrInfo> := [];
      for i := 0 to |items|
        invariant items == old(items)
        invariant toRemove == Picked(items[..i], k)
        invariant forall f :: (if f in seen then seen[f] else 0) == Count(items[..i], f)
      {
        var info := items[i];
        PickedNext(items, i, k);
        if info.family !in seen {
          seen := seen[info.family := 0];
        }
        if seen[info.family] < k {
          toRemove := toRemove + [info];
        }
        seen := seen[info.family := seen[info.family] + 1];
      }
      assert items[..|items|] == items;
      RemovingPickedKeeps(items, k);
      RemoveAll(toRemove);
    }

    method RemoveAll(xs: seq<AddrInfo>)
      modifies this
      ensures items == RemoveEach(old(items), xs)
    {
      for i := 0 to |xs|
        invariant RemoveEach(items, xs[i..]) == RemoveEach(old(items), xs)
      {
        assert xs[i..][0] == xs[i] && xs[i..][1..] == xs[i + 1..];
        items := Without(items, xs[i]);
      }
      assert xs[|xs|..] == [];
    }

    method CollectMatching(canon: nat -> nat, addr: nat) returns (bad: seq<AddrInfo>)
      ensures bad == Matching(items, canon, addr)
    {
      bad := [];
      for i := 0 to |items|
        invariant bad == Matching(items[..i], canon, addr)
      {
        assert items[..i + 1][..i] == items[..i];
        if canon(items[i].addr) == canon(addr) {
          bad := bad + [items[i]];
        }
      }
      assert items[..|items|] == items;
    }

    /** First by equal tuples, then by the addresses they denote; false is the `ValueError`. */
    method RemovePeer(addr: nat, canon: nat -> nat) returns (found: bool)
      modifies this
      ensures match WithoutPeer(old(items), canon, addr)
        case Some(rest) => found && items == rest
        case None => !found && items == old(items)
    {
      var same := (x: nat) => x;
      var bad := CollectMatching(same, addr);
      RemovingMatches(items, same, addr);
      UnmatchedMembers(items, same, addr);
      RemovingMatches(items, canon, addr);
      UnmatchedMembers(items, canon, addr);
      if bad != [] {
        RemoveAll(bad);
        return true;
      }
      bad := CollectMatching(canon, addr);
      if bad != [] {
        RemoveAll(bad);
        return true;
      }
      return false;
    }

    /** The loop of `_create_direct_connection`, as far as the passes go. */
    method Reconnect(interleave: Option<int>, canon: nat -> nat, passes: seq<Pass>) returns (r: Result)
      modifies this
      ensures (r, items) == Tried(old(items), interleave, canon, passes, 0)
    {
      hide Matching, Unmatched, Kept, WithoutPeer;
      var tries := 0;
      while items != [] && tries < |passes|
        invariant tries <= |passes|
        invariant Tried(items, interleave, canon, passes, tries) == Tried(old(items), interleave, canon, passes, 0)
        decreases |passes| - tries
      {
        match passes[tries] {
          case Connected =>
            return Done(tries);
          case ConnectError =>
            PopInterleave(interleave);
          case Mismatch(peer) =>
            var found := RemovePeer(peer, canon);
            if !found {
              return NotFound(tries);
            }
        }
        tries := tries + 1;
      }
      r := if items == [] then Exhausted(tries) else Trying;
    }
  }
}
