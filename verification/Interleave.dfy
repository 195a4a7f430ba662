/** Interleaving resolved addresses by family, after section 4 of RFC 8305. */
module Interleave {
  import opened Dicts
  import opened Addresses

  /** The families of a list, in the order in which they first appear. */
  function Families(s: seq<AddrInfo>): seq<nat> {
    if s == [] then []
    else
      var fs := Families(s[..|s| - 1]);
      if s[|s| - 1].family in fs then fs else fs + [s[|s| - 1].family]
  }

  lemma {:induction false} FamiliesAreThose(s: seq<AddrInfo>)
    ensures Distinct(Families(s))
    ensures forall f :: f in Families(s) <==> FamilyOf(s, f) != []
  {
    if s != [] {
      FamiliesAreThose(s[..|s| - 1]);
      var fs, x := Families(s[..|s| - 1]), s[|s| - 1];
      forall f ensures f in Families(s) <==> FamilyOf(s, f) != [] {
        assert f in fs + [x.family] <==> f in fs || f == x.family;
      }
    }
  }

  /** One list per family. */
  ghost predicate ByFamily(lists: seq<seq<AddrInfo>>, fs: seq<nat>) {
    && |lists| == |fs| && Distinct(fs)
    && forall i, j :: 0 <= i < |lists| && 0 <= j < |lists[i]| ==> lists[i][j].family == fs[i]
  }

  /** The first of each list that has one. */
  function Heads(lists: seq<seq<AddrInfo>>): seq<AddrInfo> {
    if lists == [] then [] else (if lists[0] == [] then [] else [lists[0][0]]) + Heads(lists[1..])
  }

  function Tails(lists: seq<seq<AddrInfo>>): (r: seq<seq<AddrInfo>>)
    ensures |r| == |lists|
    ensures forall i :: 0 <= i < |r| ==> r[i] == if lists[i] == [] then [] else lists[i][1..]
  {
    if lists == [] then [] else [if lists[0] == [] then [] else lists[0][1..]] + Tails(lists[1..])
  }

  function Longest(lists: seq<seq<AddrInfo>>): (n: nat)
    ensures forall i :: 0 <= i < |lists| ==> |lists[i]| <= n
    ensures n > 0 ==> exists i :: 0 <= i < |lists| && |lists[i]| == n
  {
    if lists == [] then 0
    else
      var m := Longest(lists[1..]);
      assert forall i :: 0 < i < |lists| ==> lists[i] == lists[1..][i - 1];
      if |lists[0]| >= m then assert |lists[0]| == |lists[0]|; |lists[0]|
      else
        assert exists i :: 0 <= i < |lists[1..]| && |lists[1..][i]| == m && |lists[i + 1]| == m;
        m
  }

  /** `zip_longest` without its fill values: a round of heads, then a round of what follows, ... */
  function RoundRobin(lists: seq<seq<AddrInfo>>, rounds: nat): seq<AddrInfo>
    decreases rounds
  {
    if rounds == 0 then [] else Heads(lists) + RoundRobin(Tails(lists), rounds - 1)
  }

  lemma {:induction false} HeadsByFamily(lists: seq<seq<AddrInfo>>, fs: seq<nat>, i: nat)
    requires ByFamily(lists, fs) && i < |lists|
    ensures FamilyOf(Heads(lists), fs[i]) == if lists[i] == [] then [] else [lists[i][0]]
  {
    var first := if lists[0] == [] then [] else [lists[0][0]];
    var f := fs[i];
    FamilyConcat(first, Heads(lists[1..]), f);
    if lists[0] != [] {
      assert first[..0] == [];
      assert FamilyOf(first, f) == if fs[0] == f then first else [];
    }
    ByFamilyRest(lists, fs);
    if i > 0 {
      HeadsByFamily(lists[1..], fs[1..], i - 1);
    } else {
      HeadsWithout(lists[1..], fs[1..], f);
    }
  }

  lemma ByFamilyRest(lists: seq<seq<AddrInfo>>, fs: seq<nat>)
    requires ByFamily(lists, fs) && lists != []
    ensures ByFamily(lists[1..], fs[1..]) && fs[0] !in fs[1..]
  {
    assert forall i :: 0 <= i < |lists| - 1 ==> lists[1..][i] == lists[i + 1] && fs[1..][i] == fs[i + 1];
  }

  lemma {:induction false} HeadsWithout(lists: seq<seq<AddrInfo>>, fs: seq<nat>, f: nat)
    requires ByFamily(lists, fs) && f !in fs
    ensures FamilyOf(Heads(lists), f) == []
  {
    if lists != [] {
      ByFamilyRest(lists, fs);
      assert fs == [fs[0]] + fs[1..];
      HeadsWithout(lists[1..], fs[1..], f);
      var first := if lists[0] == [] then [] else [lists[0][0]];
      FamilyConcat(first, Heads(lists[1..]), f);
      if lists[0] != [] {
        assert first[..0] == [];
        assert FamilyOf(first, f) == [];
      }
    }
  }

  lemma TailsByFamily(lists: seq<seq<AddrInfo>>, fs: seq<nat>)
    requires ByFamily(lists, fs)
    ensures ByFamily(Tails(lists), fs)
  {
  }

  lemma FamilyOfNothing(f: nat)
    ensures FamilyOf([], f) == []
  {
  }

  /** Going round takes each list out in full and in order. */
  lemma {:induction false} RoundRobinByFamily(lists: seq<seq<AddrInfo>>, fs: seq<nat>, rounds: nat, i: nat)
    requires ByFamily(lists, fs) && i < |lists| && |lists[i]| <= rounds
    ensures FamilyOf(RoundRobin(lists, rounds), fs[i]) == lists[i]
    decreases rounds
  {
    hide FamilyOf, Distinct, Heads, Tails;
    FamilyOfNothing(fs[i]);
    if rounds > 0 {
      if lists[i] != [] {
        assert [lists[i][0]] + lists[i][1..] == lists[i];
      }
      HeadsByFamily(lists, fs, i);
      TailsByFamily(lists, fs);
      RoundRobinByFamily(Tails(lists), fs, rounds - 1, i);
      FamilyConcat(Heads(lists), RoundRobin(Tails(lists), rounds - 1), fs[i]);
    }
  }

  lemma {:induction false} RoundRobinWithout(lists: seq<seq<AddrInfo>>, fs: seq<nat>, rounds: nat, f: nat)
    requires ByFamily(lists, fs) && f !in fs
    ensures FamilyOf(RoundRobin(lists, rounds), f) == []
    decreases rounds
  {
    hide FamilyOf, Distinct, Heads, Tails;
    FamilyOfNothing(f);
    if rounds > 0 {
      HeadsWithout(lists, fs, f);
      TailsByFamily(lists, fs);
      RoundRobinWithout(Tails(lists), fs, rounds - 1, f);
      FamilyConcat(Heads(lists), RoundRobin(Tails(lists), rounds - 1), f);
    }
  }

  lemma {:induction false} CountPrefix(s: seq<AddrInfo>, n: nat, f: nat)
    requires n <= |s|
    ensures Count(s[..n], f) <= Count(s, f)
  {
    assert s == s[..n] + s[n..];
    FamilyConcat(s[..n], s[n..], f);
  }

  /** Going round is even: at no point is a family two ahead of another that still has addresses to come. */
  lemma {:induction false} RoundRobinIsEven(lists: seq<seq<AddrInfo>>, fs: seq<nat>, rounds: nat, n: nat, i: nat,
    j: nat)
    requires ByFamily(lists, fs) && i < |lists| && j < |lists| && n <= |RoundRobin(lists, rounds)|
    requires Count(RoundRobin(lists, rounds)[..n], fs[i]) < |lists[i]|
    ensures Count(RoundRobin(lists, rounds)[..n], fs[j]) <= Count(RoundRobin(lists, rounds)[..n], fs[i]) + 1
    decreases rounds
  {
    hide FamilyOf, Distinct, Heads, Tails;
    FamilyOfNothing(fs[j]);
    var r := RoundRobin(lists, rounds);
    if rounds == 0 {
      assert r[..n] == [];
    } else {
      var heads, rest := Heads(lists), RoundRobin(Tails(lists), rounds - 1);
      HeadsByFamily(lists, fs, i);
      HeadsByFamily(lists, fs, j);
      if n <= |heads| {
        assert r[..n] == heads[..n];
        CountPrefix(heads, n, fs[j]);
      } else {
        var m := n - |heads|;
        assert r[..n] == heads + rest[..m];
        FamilyConcat(heads, rest[..m], fs[i]);
        FamilyConcat(heads, rest[..m], fs[j]);
        TailsByFamily(lists, fs);
        RoundRobinIsEven(Tails(lists), fs, rounds - 1, m, i, j);
      }
    }
  }

  function Lists(s: seq<AddrInfo>): (r: seq<seq<AddrInfo>>)
    ensures |r| == |Families(s)| && forall i :: 0 <= i < |r| ==> r[i] == FamilyOf(s, Families(s)[i])
  {
    seq(|Families(s)|, i requires 0 <= i < |Families(s)| => FamilyOf(s, Families(s)[i]))
  }

  /** How many of the first family go before the rounds. */
  function Lead(s: seq<AddrInfo>, first: int): nat
    requires s != []
  {
    FamiliesNonempty(s);
    if first > 1 then (if first - 1 <= |Lists(s)[0]| then first - 1 else |Lists(s)[0]|) else 0
  }

  lemma FamiliesNonempty(s: seq<AddrInfo>)
    requires s != []
    ensures Families(s) != [] && |Lists(s)| > 0
  {
  }

  function AfterLead(s: seq<AddrInfo>, first: int): seq<seq<AddrInfo>>
    requires s != []
  {
    FamiliesNonempty(s);
    Lists(s)[0 := Lists(s)[0][Lead(s, first)..]]
  }

  /** `_interleave_addrinfos`. */
  function Interleaved(s: seq<AddrInfo>, first: int): seq<AddrInfo>
    requires s != [] || first <= 1
  {
    if s == [] then []
    else
      FamiliesNonempty(s);
      Lists(s)[0][..Lead(s, first)] + RoundRobin(AfterLead(s, first), Longest(AfterLead(s, first)))
  }

  lemma {:induction false} FamilyIsPure(s: seq<AddrInfo>, f: nat)
    ensures forall i :: 0 <= i < |FamilyOf(s, f)| ==> FamilyOf(s, f)[i].family == f
  {
    if s != [] {
      FamilyIsPure(s[..|s| - 1], f);
    }
  }

  lemma {:induction false} PureFamily(s: seq<AddrInfo>, f: nat, g: nat)
    requires forall i :: 0 <= i < |s| ==> s[i].family == f
    ensures FamilyOf(s, g) == if g == f then s else []
  {
    if s != [] {
      PureFamily(s[..|s| - 1], f, g);
      assert s == s[..|s| - 1] + [s[|s| - 1]];
    }
  }

  lemma ListsByFamily(s: seq<AddrInfo>, first: int)
    requires s != []
    ensures ByFamily(Lists(s), Families(s)) && ByFamily(AfterLead(s, first), Families(s))
  {
    FamiliesAreThose(s);
    forall i, j | 0 <= i < |Lists(s)| && 0 <= j < |Lists(s)[i]| ensures Lists(s)[i][j].family == Families(s)[i] {
      FamilyIsPure(s, Families(s)[i]);
    }
  }

  /** Interleaving keeps every family complete and in its order. */
  lemma InterleavedKeepsFamilies(s: seq<AddrInfo>, first: int, f: nat)
    requires s != []
    ensures FamilyOf(Interleaved(s, first), f) == FamilyOf(s, f)
  {
    hide FamilyOf, Families, Distinct, RoundRobin, Longest, Lists, ByFamily;
    var fs, lists, n := Families(s), AfterLead(s, first), Lead(s, first);
    FamiliesNonempty(s);
    FamiliesAreThose(s);
    DistinctAt(fs);
    ListsByFamily(s, first);
    var lead := Lists(s)[0][..n];
    assert lists[0] == Lists(s)[0][n..];
    FamilyConcat(lead, RoundRobin(lists, Longest(lists)), f);
    PureFamily(lead, fs[0], f);
    if f in fs {
      var i :| 0 <= i < |fs| && fs[i] == f;
      RoundRobinByFamily(lists, fs, Longest(lists), i);
      if i == 0 {
        assert lead + Lists(s)[0][n..] == Lists(s)[0];
      } else {
        assert f != fs[0];
        assert [] + lists[i] == lists[i];
      }
    } else {
      RoundRobinWithout(lists, fs, Longest(lists), f);
    }
  }

  lemma DistinctAt(fs: seq<nat>)
    requires Distinct(fs)
    ensures forall i :: 0 < i < |fs| ==> fs[i] != fs[0]
  {
  }

  /** Interleaving permutes the list. */
  lemma InterleavedPermutes(s: seq<AddrInfo>, first: int)
    requires s != [] || first <= 1
    ensures multiset(Interleaved(s, first)) == multiset(s) && |Interleaved(s, first)| == |s|
  {
    forall f ensures FamilyOf(Interleaved(s, first), f) == FamilyOf(s, f) {
      if s != [] {
        InterleavedKeepsFamilies(s, first, f);
      }
    }
    SameFamiliesPermute(Interleaved(s, first), s);
    assert |multiset(Interleaved(s, first))| == |multiset(s)|;
  }

  /** The requested count of the first family comes first, as far as the family reaches. */
  lemma FirstFamilyLeads(s: seq<AddrInfo>, first: nat)
    requires s != [] && first >= 1
    ensures var l := FamilyOf(s, s[0].family); var n := if first <= |l| then first else |l|;
      n <= |Interleaved(s, first)| && Interleaved(s, first)[..n] == l[..n]
  {
    hide FamilyOf, Families, Distinct, Longest, Lists, ByFamily, RoundRobin, AfterLead;
    FamiliesNonempty(s);
    FirstIsFirst(s);
    FirstRound(s, first);
    LeadThenRounds(Lists(s)[0], first, RoundRobin(AfterLead(s, first), Longest(AfterLead(s, first))));
  }

  /** The rounds begin with the first address of the first family that the lead left. */
  lemma FirstRound(s: seq<AddrInfo>, first: nat)
    requires s != []
    ensures Lists(s) != []
    ensures var l, k := Lists(s)[0], Lead(s, first);
      var r := RoundRobin(AfterLead(s, first), Longest(AfterLead(s, first)));
      k < |l| ==> r != [] && r[0] == l[k]
  {
    hide FamilyOf, Families, Longest, Lists, RoundRobin;
    FamiliesNonempty(s);
    var lists, l, k := AfterLead(s, first), Lists(s)[0], Lead(s, first);
    assert lists[0] == l[k..];
    if k < |l| {
      assert Longest(lists) >= |lists[0]|;
      RoundsBegin(lists, Longest(lists));
    }
  }

  lemma LeadThenRounds(l: seq<AddrInfo>, first: nat, rounds: seq<AddrInfo>)
    requires first >= 1
    requires first - 1 < |l| ==> rounds != [] && rounds[0] == l[first - 1]
    ensures var k, n := if first - 1 <= |l| then first - 1 else |l|, if first <= |l| then first else |l|;
      n <= |l[..k] + rounds| && (l[..k] + rounds)[..n] == l[..n]
  {
  }

  lemma RoundsBegin(lists: seq<seq<AddrInfo>>, rounds: nat)
    requires rounds > 0 && lists != [] && lists[0] != []
    ensures RoundRobin(lists, rounds) != [] && RoundRobin(lists, rounds)[0] == lists[0][0]
  {
    assert Heads(lists)[0] == lists[0][0];
  }

  lemma {:induction false} FirstIsFirst(s: seq<AddrInfo>)
    requires s != []
    ensures Families(s) != [] && Families(s)[0] == s[0].family
  {
    if |s| > 1 {
      FirstIsFirst(s[..|s| - 1]);
    } else {
      assert s[..0] == [];
    }
  }

  /** After the leading addresses the families take turns: no family gets two ahead of one that still waits. */
  lemma InterleavedIsEven(s: seq<AddrInfo>, first: int, n: nat, f: nat, g: nat)
    requires s != [] && Lead(s, first) <= n <= |Interleaved(s, first)|
    requires f in Families(s) && g in Families(s)
    requires Count(Interleaved(s, first)[..n], f) < Count(s, f)
    ensures var after := Interleaved(s, first)[Lead(s, first)..n];
      Count(after, g) <= Count(after, f) + 1
  {
    hide FamilyOf, Families, Distinct, RoundRobin, Longest, Lists, ByFamily;
    var fs, lists, k := Families(s), AfterLead(s, first), Lead(s, first);
    FamiliesNonempty(s);
    FamiliesAreThose(s);
    DistinctAt(fs);
    ListsByFamily(s, first);
    var lead, r := Lists(s)[0][..k], RoundRobin(lists, Longest(lists));
    var i :| 0 <= i < |fs| && fs[i] == f;
    var j :| 0 <= j < |fs| && fs[j] == g;
    assert Interleaved(s, first)[..n] == lead + r[..n - k];
    assert Interleaved(s, first)[k..n] == r[..n - k];
    FamilyConcat(lead, r[..n - k], f);
    PureFamily(lead, fs[0], f);
    assert lists[0] == Lists(s)[0][k..];
    if i > 0 {
      assert f != fs[0] && lists[i] == FamilyOf(s, f);
    }
    RoundRobinIsEven(lists, fs, Longest(lists), n - k, i, j);
  }

  /** The grouping loop, the leading slice and the rounds. */
  method InterleaveAddrinfos(s: seq<AddrInfo>, first: int) returns (reordered: seq<AddrInfo>)
    requires s != [] || first <= 1
    ensures reordered == Interleaved(s, first)
  {
    var lists := GroupByFamily(s);
    if s == [] {
      NoFamilies();
      reordered := ZipLongest(lists);
      return;
    }
    FamiliesNonempty(s);
    reordered := [];
    if first > 1 {
      var n := if first - 1 <= |lists[0]| then first - 1 else |lists[0]|;
      reordered := lists[0][..n];
      lists := lists[0 := lists[0][n..]];
    } else {
      assert lists[0 := lists[0][0..]] == lists;
    }
    var rounds := ZipLongest(lists);
    reordered := reordered + rounds;
  }

  method GroupByFamily(s: seq<AddrInfo>) returns (lists: seq<seq<AddrInfo>>)
    ensures lists == Lists(s)
  {
    hide FamilyOf, Families;
    var groups: Dict<nat, seq<AddrInfo>> := Empty();
    NoFamilies();
    for i := 0 to |s|
      invariant groups == Grouped(s[..i])
    {
      var addr := s[i];
      GroupedSnoc(s[..i], addr);
      assert s[..i] + [addr] == s[..i + 1];
      var group := if addr.family in groups.at then groups.at[addr.family] else [];
      groups := groups.Set(addr.family, group + [addr]);
    }
    assert s[..|s|] == s;
    lists := [];
    for i := 0 to |groups.keys|
      invariant |lists| == i && forall j :: 0 <= j < i ==> lists[j] == FamilyOf(s, Families(s)[j])
    {
      lists := lists + [groups.at[groups.keys[i]]];
    }
  }

  /** The dictionary of the grouping loop. */
  function Grouped(s: seq<AddrInfo>): Dict<nat, seq<AddrInfo>> {
    Dict(Families(s), map f | f in Families(s) :: FamilyOf(s, f))
  }

  lemma NoFamilies()
    ensures Grouped([]) == Empty() && Families([]) == []
  {
  }

  lemma GroupedSnoc(s: seq<AddrInfo>, x: AddrInfo)
    ensures var g := Grouped(s);
      Grouped(s + [x]) == g.Set(x.family, (if x.family in g.at then g.at[x.family] else []) + [x])
  {
    hide FamilyOf;
    FamiliesAreThose(s);
    assert (s + [x])[..|s|] == s;
    FamilySnoc(s, x, x.family);
    var g, h := Grouped(s), Grouped(s + [x]);
    var before := if x.family in g.at then g.at[x.family] else [];
    assert before == FamilyOf(s, x.family);
    forall f | f in h.at && f != x.family ensures f in g.at && h.at[f] == g.at[f] {
      FamilySnoc(s, x, f);
    }
  }

  /** One round over the lists. */
  method OneRound(lists: seq<seq<AddrInfo>>) returns (r: seq<AddrInfo>)
    ensures r == Heads(lists)
  {
    r := [];
    for i := 0 to |lists|
      invariant r + Heads(lists[i..]) == Heads(lists)
    {
      assert lists[i..][0] == lists[i] && lists[i..][1..] == lists[i + 1..];
      ghost var was := r;
      if lists[i] != [] {
        r := r + [lists[i][0]];
      }
      assert was + Heads(lists[i..]) == r + Heads(lists[i + 1..]);
    }
    assert r + [] == r;
  }

  method ZipLongest(lists: seq<seq<AddrInfo>>) returns (r: seq<AddrInfo>)
    ensures r == RoundRobin(lists, Longest(lists))
  {
    hide Longest, Tails;
    r := [];
    var n := Longest(lists);
    var rest := lists;
    for round := 0 to n
      invariant |rest| == |lists|
      invariant r + RoundRobin(rest, n - round) == RoundRobin(lists, n)
    {
      ghost var before, later := r, RoundRobin(Tails(rest), n - round - 1);
      var heads := OneRound(rest);
      r := r + heads;
      assert before + (heads + later) == r + later;
      rest := Tails(rest);
    }
    assert r + [] == r;
  }
}
