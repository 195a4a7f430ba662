/** The pure-Python RC4 stream cipher. Characters are code points, so a key or message character may exceed 255. */
module Rc4 {
  type Char = bv32
  type Index = i: nat | i < 256

  /** `n & 0xff`. */
  function Low(n: nat): Index {
    n % 256
  }

  /** The table, and the two indices that `encrypt` moves. */
  datatype State = State(box: seq<Index>, x: Index, y: Index) {
    ghost predicate Valid() {
      Permutation(box)
    }
  }

  function Identity(): seq<Index> {
    seq(256, i requires 0 <= i < 256 => i as Index)
  }

  /** Every number below 256 exactly once. */
  ghost predicate Permutation(box: seq<Index>) {
    |box| == 256 && multiset(box) == multiset(Identity())
  }

  function Swap(box: seq<Index>, i: Index, j: Index): seq<Index>
    requires |box| == 256
  {
    box[i := box[j]][j := box[i]]
  }

  lemma SwapKeeps(box: seq<Index>, i: Index, j: Index)
    requires Permutation(box)
    ensures Permutation(Swap(box, i, j))
  {
  }

  lemma PermutationHasAll(box: seq<Index>, v: Index)
    requires Permutation(box)
    ensures v in box && multiset(box)[v] == 1
  {
    var id := Identity();
    assert id == id[..v] + [id[v]] + id[v + 1..];
    assert multiset(id) == multiset(id[..v]) + multiset{id[v]} + multiset(id[v + 1..]);
    assert v !in id[..v] && v !in id[v + 1..];
    assert multiset(id)[v] == 1;
    assert v in multiset(box);
  }

  /** The index and table after `n` rounds of key setup. */
  function Scheduled(key: seq<nat>, n: nat): (r: (seq<Index>, Index))
    requires key != [] && n <= 256
    ensures Permutation(r.0)
  {
    if n == 0 then (Identity(), 0)
    else
      var (box, x) := Scheduled(key, n - 1);
      var i: Index := n - 1;
      var x' := Low(x + box[i] + key[i % |key|]);
      SwapKeeps(box, i, x');
      (Swap(box, i, x'), x')
  }

  function Initial(key: seq<nat>): (s: State)
    requires key != []
    ensures s.Valid()
  {
    State(Scheduled(key, 256).0, 0, 0)
  }

  /** One character: move the indices, swap, and name the table entry to mix in. */
  function Step(s: State): (r: State)
    requires s.Valid()
    ensures r.Valid()
  {
    var x := Low(s.x + 1);
    var y := Low(s.y + s.box[x]);
    SwapKeeps(s.box, x, y);
    State(Swap(s.box, x, y), x, y)
  }

  function KeyOf(s: State): Index
    requires s.Valid()
  {
    s.box[Low(s.box[s.x] as nat + s.box[s.y])]
  }

  function After(s: State, n: nat): (r: State)
    requires s.Valid()
    ensures r.Valid()
    decreases n
  {
    if n == 0 then s else After(Step(s), n - 1)
  }

  function Mix(c: Char, k: Index): Char {
    c ^ Bits(k)
  }

  function Bits(k: Index): Char {
    (k as bv8) as Char
  }

  function Encrypted(s: State, data: seq<Char>): (r: seq<Char>)
    requires s.Valid()
    ensures |r| == |data|
    decreases |data|
  {
    if data == [] then []
    else
      var t := Step(s);
      [Mix(data[0], KeyOf(t))] + Encrypted(t, data[1..])
  }

  lemma NothingLeft(s: State)
    requires s.Valid()
    ensures Encrypted(s, []) == [] && After(s, 0) == s
  {
  }

  lemma EncryptedStep(s: State, data: seq<Char>, i: nat, out: seq<Char>)
    requires s.Valid() && i < |data|
    ensures var t := Step(s);
      && out + Encrypted(s, data[i..]) == out + [Mix(data[i], KeyOf(t))] + Encrypted(t, data[i + 1..])
      && After(s, |data| - i) == After(t, |data| - (i + 1))
  {
    hide Permutation, Step, KeyOf, Mix;
    assert data[i..][1..] == data[i + 1..];
  }

  /** The i-th character out depends on the i-th character in and the state alone: no other part of the message. */
  lemma {:induction false} KeystreamIgnoresMessage(s: State, data: seq<Char>, i: nat)
    requires s.Valid() && i < |data|
    ensures Encrypted(s, data)[i] == Mix(data[i], KeyOf(After(s, i + 1)))
    decreases i
  {
    hide Permutation, KeyOf, Step;
    var t := Step(s);
    assert After(s, i + 1) == After(t, i);
    if i == 0 {
      assert After(t, 0) == t;
    } else {
      KeystreamIgnoresMessage(t, data[1..], i - 1);
    }
  }

  lemma MixTwice(c: Char, k: Index)
    ensures Mix(Mix(c, k), k) == c
  {
    hide Bits;
    XorTwice(c, Bits(k));
  }

  lemma XorTwice(c: Char, k: Char)
    ensures (c ^ k) ^ k == c
  {
  }

  /** `chr` never gets a value out of range. */
  lemma MixIsCodePoint(c: Char, k: Index)
    requires c < 0x110000
    ensures Mix(c, k) < 0x110000
  {
    hide Bits;
    BitsAreLow(k);
    LowXorStays(c, Bits(k));
  }

  lemma BitsAreLow(k: Index)
    ensures Bits(k) < 0x100
  {
    ExtendedIsLow(k as bv8);
  }

  lemma ExtendedIsLow(b: bv8)
    ensures (b as Char) < 0x100
  {
  }

  lemma LowXorStays(c: Char, k: Char)
    requires c < 0x110000 && k < 0x100
    ensures c ^ k < 0x110000
  {
  }

  /** Cutting a message anywhere changes neither the output nor the state left behind. */
  lemma {:induction false} ChunksJoin(s: State, a: seq<Char>, b: seq<Char>)
    requires s.Valid()
    ensures Encrypted(s, a + b) == Encrypted(s, a) + Encrypted(After(s, |a|), b)
    ensures After(s, |a + b|) == After(After(s, |a|), |b|)
    decreases |a|
  {
    hide Permutation, KeyOf, Mix, Step;
    if a == [] {
      assert a + b == b;
    } else {
      assert (a + b)[1..] == a[1..] + b;
      ChunksJoin(Step(s), a[1..], b);
    }
  }

  /** A second cipher in the same state undoes the first. */
  lemma {:induction false} Undoes(s: State, data: seq<Char>)
    requires s.Valid()
    ensures Encrypted(s, Encrypted(s, data)) == data
    decreases |data|
  {
    hide Permutation, KeyOf, Mix, Step;
    if data != [] {
      var t := Step(s);
      MixTwice(data[0], KeyOf(t));
      Undoes(t, data[1..]);
      assert Encrypted(s, data)[1..] == Encrypted(t, data[1..]);
    }
  }

  /** A key that swaps every entry with itself. */
  function IdentityKey(): (key: seq<nat>)
    ensures |key| == 256 && key[0] == 0 && forall i :: 0 < i < 256 ==> key[i] == (257 - i) % 256
  {
    seq(256, i requires 0 <= i < 256 => if i == 0 then 0 else (257 - i) % 256)
  }

  lemma SwapsWithItself(i: Index)
    ensures Swap(Identity(), i, i) == Identity()
    ensures Identity()[i] == i && i % |IdentityKey()| == i
    ensures Low((if i == 0 then 0 else i - 1) + i + IdentityKey()[i % |IdentityKey()|]) == i
  {
    hide Permutation;
    if i > 1 {
      assert (257 - i) % 256 == 257 - i;
    }
  }

  lemma {:induction false} IdentityKeySchedules(n: nat)
    requires n <= 256
    ensures Scheduled(IdentityKey(), n) == (Identity(), if n == 0 then 0 else n - 1)
  {
    hide Permutation, Identity, IdentityKey, Swap, Low;
    if n > 0 {
      IdentityKeySchedules(n - 1);
      var i: Index := n - 1;
      SwapsWithItself(i);
    }
  }

  /** A known answer: the key that leaves the table as it is gives the characters 2, 5, 7 for three zeros. */
  lemma KnownAnswer()
    ensures Encrypted(Initial(IdentityKey()), [0, 0, 0]) == [2, 5, 7]
  {
    hide Permutation, Encrypted, KeyOf, Step, Scheduled, Identity, IdentityKey;
    IdentityKeySchedules(256);
    var s0 := State(Identity(), 0, 0);
    var s1, s2, s3 := KnownStates();
    FirstOut(s0, [0, 0, 0], 2);
    FirstOut(s1, [0, 0], 5);
    FirstOut(s2, [0], 7);
    NothingLeft(s3);
    assert [0 as Char, 0, 0][1..] == [0, 0] && [0 as Char, 0][1..] == [0] && [0 as Char][1..] == [];
  }

  lemma FirstOut(s: State, data: seq<Char>, k: Index)
    requires s.Valid() && data != [] && data[0] == 0 && KeyOf(Step(s)) == k
    ensures Encrypted(s, data) == [(k as bv8) as Char] + Encrypted(Step(s), data[1..])
  {
    hide Permutation, KeyOf, Step;
  }

  lemma KnownStates() returns (s1: State, s2: State, s3: State)
    ensures var s0 := State(Identity(), 0, 0);
      && s0.Valid() && s1 == Step(s0) && KeyOf(s1) == 2
      && s2 == Step(s1) && KeyOf(s2) == 5 && s3 == Step(s2) && KeyOf(s3) == 7
  {
    hide Permutation;
    var id := Identity();
    IdentityValid();
    s1 := Step(State(id, 0, 0));
    assert s1 == State(id, 1, 1) by { assert Swap(id, 1, 1) == id; }
    s2 := Step(s1);
    assert s2 == State(id[2 := 3][3 := 2], 2, 3);
    s3 := Step(s2);
    assert s3.x == 3 && s3.y == 5 && s3.box == s2.box[3 := 5][5 := 2];
  }

  lemma IdentityValid()
    ensures State(Identity(), 0, 0).Valid()
  {
  }

  /** A key written twice schedules as the key does: its characters are taken in turn, over and over. */
  lemma {:induction false} KeyRepeats(key: seq<nat>, n: nat)
    requires key != [] && n <= 256
    ensures Scheduled(key + key, n) == Scheduled(key, n)
  {
    hide Scheduled, Permutation, Swap, Low;
    NoRounds(key);
    NoRounds(key + key);
    if n > 0 {
      KeyRepeats(key, n - 1);
      TurnsOver(key, n - 1);
      NextRound(key, n - 1);
      NextRound(key + key, n - 1);
    }
  }

  lemma NoRounds(key: seq<nat>)
    requires key != []
    ensures Scheduled(key, 0) == (Identity(), 0)
  {
  }

  lemma NextRound(key: seq<nat>, i: nat)
    requires key != [] && i < 256
    ensures var (box, x) := Scheduled(key, i); var x' := Low(x + box[i] + key[i % |key|]);
      Scheduled(key, i + 1) == (Swap(box, i, x'), x')
  {
    hide Permutation, Swap, Low;
  }

  lemma TurnsOver(key: seq<nat>, i: nat)
    requires key != []
    ensures (key + key)[i % |key + key|] == key[i % |key|]
  {
    TwoTurns(i, |key|, i % (2 * |key|));
  }

  lemma TwoTurns(i: nat, m: nat, r: nat)
    requires m > 0 && r == i % (2 * m)
    ensures r < 2 * m && i % m == if r < m then r else r - m
  {
    var q := i / (2 * m);
    assert i == q * (2 * m) + r;
    TwiceAsOften(q, m);
    assert i == (i / m) * m + i % m;
    Quotient(i, m, if r < m then 2 * q else 2 * q + 1, i / m);
  }

  lemma TwiceAsOften(q: nat, m: nat)
    ensures q * (2 * m) == (2 * q) * m && (2 * q + 1) * m == (2 * q) * m + m
  {
  }

  lemma Quotient(i: nat, m: nat, p: nat, q: nat)
    requires m > 0 && p * m <= i < p * m + m && q * m <= i < q * m + m
    ensures p == q
  {
    if p < q {
      Product(p + 1, q, m);
    } else if q < p {
      Product(q + 1, p, m);
    }
  }

  lemma Product(p: nat, q: nat, m: nat)
    requires p <= q
    ensures p * m <= q * m && (p > 0 ==> p * m == (p - 1) * m + m)
  {
  }

  class RC4Cipher {
    var box: array<Index>
    var x: Index
    var y: Index

    ghost predicate Valid()
      reads this, box
    {
      box.Length == 256 && State(box[..], x, y).Valid()
    }

    ghost function Now(): State
      requires Valid()
      reads this, box
    {
      State(box[..], x, y)
    }

    constructor (key: seq<nat>)
      requires key != []
      ensures Valid() && fresh(box) && Now() == Initial(key)
    {
      hide Permutation, Low;
      var x: Index := 0;
      var t := new Index[256](i requires 0 <= i < 256 => i as Index);
      assert t[..] == Identity();
      var i := 0;
      while i < 256
        invariant 0 <= i <= 256 && t.Length == 256
        invariant (t[..], x) == Scheduled(key, i)
      {
        ghost var was := t[..];
        var y := t[i];
        x := Low(x + y + key[i % |key|]);
        t[i], t[x] := t[x], y;
        assert t[..] == Swap(was, i, x);
        i := i + 1;
      }
      box, this.x, y := t, 0, 0;
    }

    method Encrypt(data: seq<Char>) returns (out: seq<Char>)
      requires Valid()
      modifies this, box
      ensures Valid() && box == old(box)
      ensures out == Encrypted(old(Now()), data)
      ensures Now() == After(old(Now()), |data|)
    {
      hide Permutation, Mix, Encrypted, After, Low;
      out := [];
      var x, y := this.x, this.y;
      ghost var s := Now();
      ghost var t := s;
      assert data == data[0..];
      var i := 0;
      while i < |data|
        invariant 0 <= i <= |data|
        invariant box == old(box) && box.Length == 256
        invariant t.Valid() && t == State(box[..], x, y)
        invariant out + Encrypted(t, data[i..]) == Encrypted(s, data)
        invariant After(t, |data| - i) == After(s, |data|)
        modifies box
      {
        EncryptedStep(t, data, i, out);
        x := Low(x as nat + 1);
        y := Low(y as nat + box[x]);
        ghost var was := box[..];
        box[x], box[y] := box[y], box[x];
        assert box[..] == Swap(was, x, y);
        t := Step(t);
        out := out + [Mix(data[i], box[Low(box[x] as nat + box[y])])];
        i := i + 1;
      }
      NothingLeft(t);
      this.x, this.y := x, y;
    }
  }

  /** Encrypting with one cipher and decrypting with another of the same key, the second in different pieces. */
  method RoundTrip(key: seq<nat>, data: seq<Char>, cut: nat) returns (plain: seq<Char>)
    requires key != [] && cut <= |data|
    ensures plain == data
  {
    hide Encrypted, After, Initial, Permutation;
    var one := new RC4Cipher(key);
    var two := new RC4Cipher(key);
    var sent := one.Encrypt(data);
    var a := two.Encrypt(sent[..cut]);
    var b := two.Encrypt(sent[cut..]);
    plain := a + b;
    ghost var s := Initial(key);
    ChunksJoin(s, sent[..cut], sent[cut..]);
    assert sent[..cut] + sent[cut..] == sent;
    Undoes(s, data);
  }
}
