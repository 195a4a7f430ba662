/** Where every address stands after interleaving: round by round, and in each round family by family. */
module InterleaveOrder {
  import opened Addresses
  import opened Interleave

  function Least(a: nat, b: nat): nat {
    if a <= b then a else b
  }

  /** How many addresses come before the r-th of the i-th list: of every earlier list one more than of later ones, as
      far as the list reaches. */
  function Before(lists: seq<seq<AddrInfo>>, r: nat, i: nat): nat {
    if lists == [] then 0
    else Least(|lists[0]|, if i > 0 then r + 1 else r) + Before(lists[1..], r, if i > 0 then i - 1 else 0)
  }

  /** Round first, then family. */
  predicate Earlier(r: nat, i: nat, s: nat, j: nat) {
    r < s || (r == s && i < j)
  }

  lemma {:induction false} BeforeGrows(lists: seq<seq<AddrInfo>>, r: nat, i: nat, s: nat, j: nat)
    requires Earlier(r, i, s, j) || (r == s && i == j)
    ensures Before(lists, r, i) <= Before(lists, s, j)
    ensures i < |lists| && r < |lists[i]| && Earlier(r, i, s, j) ==> Before(lists, r, i) < Before(lists, s, j)
  {
    if lists != [] {
      var i', j' := if i > 0 then i - 1 else 0, if j > 0 then j - 1 else 0;
      BeforeGrows(lists[1..], r, i', s, j');
    }
  }

  /** All of the first round come before the second. */
  lemma {:induction false} HeadsCount(lists: seq<seq<AddrInfo>>, i: nat)
    requires i < |lists| && lists[i] != []
    ensures Before(lists, 0, i) < |Heads(lists)| && Heads(lists)[Before(lists, 0, i)] == lists[i][0]
  {
    if i > 0 {
      HeadsCount(lists[1..], i - 1);
    } else {
      NothingBefore(lists[1..]);
    }
  }

  lemma {:induction false} NothingBefore(lists: seq<seq<AddrInfo>>)
    ensures Before(lists, 0, 0) == 0
  {
    if lists != [] {
      NothingBefore(lists[1..]);
    }
  }

  /** A later round: what came before is the first round and what comes before in the rest. */
  lemma {:induction false} LaterRound(lists: seq<seq<AddrInfo>>, r: nat, i: nat)
    requires r > 0
    ensures Before(lists, r, i) == |Heads(lists)| + Before(Tails(lists), r - 1, i)
  {
    if lists != [] {
      assert Tails(lists)[1..] == Tails(lists[1..]);
      LaterRound(lists[1..], r, if i > 0 then i - 1 else 0);
    }
  }

  lemma {:induction false} RoundRobinAt(lists: seq<seq<AddrInfo>>, rounds: nat, r: nat, i: nat)
    requires i < |lists| && r < |lists[i]| && r < rounds
    ensures Before(lists, r, i) < |RoundRobin(lists, rounds)|
    ensures RoundRobin(lists, rounds)[Before(lists, r, i)] == lists[i][r]
    decreases rounds
  {
    hide Before, Heads, Tails;
    if r == 0 {
      HeadsCount(lists, i);
    } else {
      LaterRound(lists, r, i);
      RoundRobinAt(Tails(lists), rounds - 1, r - 1, i);
    }
  }

  /** Where the r-th address that the lead left of the i-th family stands in the interleaved list. */
  function Place(s: seq<AddrInfo>, first: int, r: nat, i: nat): nat
    requires s != []
  {
    Lead(s, first) + Before(AfterLead(s, first), r, i)
  }

  /** The r-th of the i-th family, the lead not counted. */
  predicate Waits(s: seq<AddrInfo>, first: int, r: nat, i: nat)
    requires s != []
  {
    i < |Families(s)| && (if i == 0 then Lead(s, first) + r else r) < |FamilyOf(s, Families(s)[i])|
  }

  lemma WaitsInLists(s: seq<AddrInfo>, first: int, r: nat, i: nat)
    requires s != [] && Waits(s, first, r, i)
    ensures i < |AfterLead(s, first)| && r < |AfterLead(s, first)[i]|
    ensures var k := if i == 0 then Lead(s, first) else 0;
      k + r < |FamilyOf(s, Families(s)[i])| && AfterLead(s, first)[i][r] == FamilyOf(s, Families(s)[i])[k + r]
  {
    hide FamilyOf, Families;
  }

  /** Behind the lead, every address stands where the order of rounds puts it: the r-th of the i-th family stands before
      the s-th of the j-th if and only if r < s, or r == s and i < j. */
  lemma RoundsInOrder(s: seq<AddrInfo>, first: int, r: nat, i: nat, r': nat, j: nat)
    requires s != [] && Waits(s, first, r, i) && Waits(s, first, r', j)
    ensures Place(s, first, r, i) < |Interleaved(s, first)|
    ensures var k := if i == 0 then Lead(s, first) else 0;
      k + r < |FamilyOf(s, Families(s)[i])|
      && Interleaved(s, first)[Place(s, first, r, i)] == FamilyOf(s, Families(s)[i])[k + r]
    ensures Place(s, first, r, i) < Place(s, first, r', j) <==> r < r' || (r == r' && i < j)
  {
    hide FamilyOf, Families, RoundRobin, Before, Longest, AfterLead;
    FamiliesNonempty(s);
    WaitsInLists(s, first, r, i);
    WaitsInLists(s, first, r', j);
    var lists := AfterLead(s, first);
    RoundRobinAt(lists, Longest(lists), r, i);
    if Earlier(r, i, r', j) {
      BeforeGrows(lists, r, i, r', j);
    } else {
      BeforeGrows(lists, r', j, r, i);
    }
  }

  /** The families are in the order in which they first appear: when the j-th first appears, exactly those before it
      have appeared. */
  lemma {:induction false} FamiliesInOrder(s: seq<AddrInfo>, j: nat) returns (p: nat)
    requires j < |Families(s)|
    ensures p < |s| && s[p].family == Families(s)[j] && Families(s[..p]) == Families(s)[..j]
    ensures forall q :: 0 <= q < p ==> s[q].family != Families(s)[j]
  {
    var before := s[..|s| - 1];
    if j < |Families(before)| {
      p := FamiliesInOrder(before, j);
      assert before[..p] == s[..p];
      assert forall q :: 0 <= q <= p ==> before[q] == s[q];
    } else {
      p := |s| - 1;
      AppearedFamilies(before);
    }
  }

  lemma {:induction false} AppearedFamilies(s: seq<AddrInfo>)
    ensures forall q :: 0 <= q < |s| ==> s[q].family in Families(s)
  {
    if s != [] {
      AppearedFamilies(s[..|s| - 1]);
      assert forall q :: 0 <= q < |s| - 1 ==> s[q] == s[..|s| - 1][q];
    }
  }
}
