/** The least-recently-used table of resolved addresses, each entry handed out in rotation. */
module DnsCache {
  import opened Dicts
  import opened Wrappers

  /** `itertools.cycle` over a list: the list and the position of the element it yields next. */
  datatype Cycle<A> = Cycle(addrs: seq<A>, offset: nat) {
    ghost predicate Valid() {
      if addrs == [] then offset == 0 else offset < |addrs|
    }

    /** After one `next`. */
    function Next(): Cycle<A> {
      Cycle(addrs, if offset + 1 == |addrs| then 0 else offset + 1)
    }

    /** The next `n` elements, one `next` at a time, and the iterator they leave. */
    function Drawn(n: nat): (r: (seq<A>, Cycle<A>))
      requires Valid() && (addrs == [] ==> n == 0)
      ensures r.1.Valid() && r.1.addrs == addrs && |r.0| == n
      decreases n
    {
      if n == 0 then ([], this)
      else
        var (rest, left) := Next().Drawn(n - 1);
        ([addrs[offset]] + rest, left)
    }

    /** The list as seen from the present position. */
    function View(): (r: seq<A>)
      requires Valid()
    {
      addrs[offset..] + addrs[..offset]
    }
  }

  /** The first element goes to the back. */
  function Turned<A>(s: seq<A>): (r: seq<A>)
    requires s != []
    ensures |r| == |s|
  {
    s[1..] + [s[0]]
  }

  /** The list after `k` such turns. */
  function Rotated<A>(addrs: seq<A>, k: nat): (r: seq<A>)
    requires addrs != []
    ensures |r| == |addrs|
  {
    if k == 0 then addrs else Turned(Rotated(addrs, k - 1))
  }

  lemma NextTurns<A>(c: Cycle<A>)
    requires c.Valid() && c.addrs != []
    ensures c.Next().Valid() && c.Next().View() == Turned(c.View())
    ensures c.View()[0] == c.addrs[c.offset]
  {
  }

  lemma TurnedFront<A>(v: seq<A>, n: nat)
    requires 1 <= n <= |v|
    ensures v[..n] == [v[0]] + Turned(v)[..n - 1]
  {
  }

  lemma {:induction false} RotatedSlices<A>(addrs: seq<A>, k: nat)
    requires addrs != [] && k <= |addrs|
    ensures Rotated(addrs, k) == addrs[k..] + addrs[..k]
    decreases k
  {
    if k > 0 {
      RotatedSlices(addrs, k - 1);
    }
  }

  lemma {:induction false} RotatedMore<A>(addrs: seq<A>, u: nat, i: nat)
    requires addrs != []
    ensures Rotated(addrs, u + i) == Rotated(Rotated(addrs, u), i)
    decreases i
  {
    hide Turned;
    if i > 0 {
      RotatedMore(addrs, u, i - 1);
    }
  }

  /** The first elements of as many calls in a row as the list is long are that list, in order: each position leads
      exactly once. */
  lemma EachLeadsOnce<A>(addrs: seq<A>, u: nat, i: nat)
    requires i < |addrs|
    ensures Rotated(addrs, u + i)[0] == Rotated(addrs, u)[i]
    ensures Rotated(addrs, u + |addrs|) == Rotated(addrs, u)
  {
    hide Rotated, Turned;
    var r := Rotated(addrs, u);
    RotatedMore(addrs, u, i);
    RotatedSlices(r, i);
    RotatedMore(addrs, u, |addrs|);
    RotatedSlices(r, |addrs|);
  }

  /** Drawing up to the end, then wrapping round. */
  lemma {:induction false} DrawnIs<A>(c: Cycle<A>, n: nat)
    requires c.Valid() && c.addrs != [] && n <= |c.addrs|
    ensures c.Drawn(n).0 == c.View()[..n]
    ensures c.Drawn(n).1.offset ==
            if c.offset + n < |c.addrs| then c.offset + n else c.offset + n - |c.addrs|
    decreases n
  {
    hide Turned;
    if n > 0 {
      NextTurns(c);
      TurnedFront(c.View(), n);
      DrawnIs(c.Next(), n - 1);
    }
  }

  /** One whole turn yields the rotated list and leaves the iterator where it was. */
  lemma WholeTurn<A>(c: Cycle<A>)
    requires c.Valid() && c.addrs != []
    ensures c.Drawn(|c.addrs|) == (c.View(), c)
    ensures c.Drawn(1).1 == c.Next()
  {
    DrawnIs(c, |c.addrs|);
    assert c.View()[..|c.addrs|] == c.View();
    DrawnIs(c, 1);
  }

  datatype Config = Config(ttl: Option<real>, maxSize: int)

  datatype Table<K(==), A> = Table(rr: Dict<K, Cycle<A>>, stamps: map<K, real>)

  datatype Op<K, A> =
    | Add(key: K, addrs: seq<A>, now: real)
    | Use(key: K)
    | Remove(key: K)
    | Clear

  /** Whether `next_addrs` succeeds: the key is cached, with a nonempty list. */
  predicate Usable<K, A>(t: Table<K, A>, key: K) {
    key in t.rr.at && t.rr.at[key].addrs != []
  }

  function Put<K, A>(c: Config, t: Table<K, A>, key: K, addrs: seq<A>, now: real): Table<K, A> {
    var moved := if key in t.rr.at then t.rr.MoveToEnd(key) else t.rr;
    Table(moved.Set(key, Cycle(addrs, 0)), if c.ttl.Some? then t.stamps[key := now] else t.stamps)
  }

  /** `popitem(last=False)` when over the limit. */
  function Trim<K, A>(c: Config, t: Table<K, A>): Table<K, A> {
    if |t.rr.keys| > c.maxSize && t.rr.keys != [] then
      Table(t.rr.Remove(t.rr.keys[0]), t.stamps - {t.rr.keys[0]})
    else t
  }

  function Apply<K, A>(c: Config, t: Table<K, A>, op: Op<K, A>): Table<K, A> {
    match op
    case Add(key, addrs, now) => Trim(c, Put(c, t, key, addrs, now))
    case Use(key) =>
      if !Usable(t, key) then t
      else
        var l := t.rr.at[key];
        t.(rr := t.rr.Set(key, l.Next()).MoveToEnd(key))
    case Remove(key) => Table(t.rr.Remove(key), t.stamps - {key})
    case Clear => Table(Empty(), map[])
  }

  /** The table after a run, from the empty table. */
  function After<K, A>(c: Config, ops: seq<Op<K, A>>): Table<K, A> {
    if ops == [] then Table(Empty(), map[])
    else Apply(c, After(c, ops[..|ops| - 1]), ops[|ops| - 1])
  }

  ghost predicate Cycles<K, A>(t: Table<K, A>) {
    forall k | k in t.rr.at :: t.rr.at[k].Valid()
  }

  ghost predicate Shape<K, A>(c: Config, t: Table<K, A>) {
    && t.rr.Valid()
    && Cycles(t)
    && t.stamps.Keys == if c.ttl.Some? then t.rr.at.Keys else {}
  }

  /** The size limit (a limit below zero acts as zero), entries listed once each, a timestamp for exactly the cached
      keys when a ttl is set and for none otherwise. */
  ghost predicate Inv<K, A>(c: Config, t: Table<K, A>) {
    Shape(c, t) && (|t.rr.keys| <= c.maxSize || t.rr.keys == [])
  }

  lemma PutKeeps<K, A>(c: Config, t: Table<K, A>, key: K, addrs: seq<A>, now: real)
    requires Shape(c, t)
    ensures Shape(c, Put(c, t, key, addrs, now))
    ensures var u := Put(c, t, key, addrs, now);
      && u.rr.keys == Without(t.rr.keys, key) + [key]
      && |u.rr.keys| == (if key in t.rr.at then |t.rr.keys| else |t.rr.keys| + 1)
  {
    if key in t.rr.at {
      MoveToEndValid(t.rr, key);
      SetValid(t.rr.MoveToEnd(key), key, Cycle(addrs, 0));
    } else {
      SetValid(t.rr, key, Cycle(addrs, 0));
      WithoutAbsent(t.rr.keys, key);
    }
  }

  lemma {:induction false} WithoutAbsent<K>(s: seq<K>, k: K)
    requires k !in s
    ensures Without(s, k) == s
  {
    if s != [] {
      WithoutAbsent(s[1..], k);
    }
  }

  lemma RemoveKeeps<K, A>(c: Config, t: Table<K, A>, key: K)
    requires Shape(c, t)
    ensures Shape(c, Table(t.rr.Remove(key), t.stamps - {key}))
    ensures |t.rr.Remove(key).keys| == if key in t.rr.at then |t.rr.keys| - 1 else |t.rr.keys|
  {
    RemoveValid(t.rr, key);
    WithoutShortens(t.rr.keys, key);
  }

  lemma ApplyKeeps<K, A>(c: Config, t: Table<K, A>, op: Op<K, A>)
    requires Inv(c, t)
    ensures Inv(c, Apply(c, t, op))
  {
    match op {
      case Add(key, addrs, now) =>
        PutKeeps(c, t, key, addrs, now);
        var u := Put(c, t, key, addrs, now);
        if |u.rr.keys| > c.maxSize {
          RemoveKeeps(c, u, u.rr.keys[0]);
        }
      case Use(key) =>
        if Usable(t, key) {
          var l := t.rr.at[key];
          var l' := l.Next();
          SetValid(t.rr, key, l');
          MoveToEndValid(t.rr.Set(key, l'), key);
        }
      case Remove(key) =>
        RemoveKeeps(c, t, key);
      case Clear =>
    }
  }

  /** Every run stays within the limit, with timestamps for exactly the cached keys. */
  lemma {:induction false} EveryRunKeeps<K, A>(c: Config, ops: seq<Op<K, A>>)
    ensures Inv(c, After(c, ops))
  {
    if ops != [] {
      EveryRunKeeps(c, ops[..|ops| - 1]);
      ApplyKeeps(c, After(c, ops[..|ops| - 1]), ops[|ops| - 1]);
    }
  }

  /** One more than the index of the last operation that added `k` or handed it out; 0 for never. */
  function LastTouch<K(==), A>(c: Config, ops: seq<Op<K, A>>, k: K): (r: nat)
    ensures r <= |ops|
  {
    if ops == [] then 0
    else
      var before, op := ops[..|ops| - 1], ops[|ops| - 1];
      if Touches(After(c, before), op, k) then |ops| else LastTouch(c, before, k)
  }

  predicate Touches<K(==), A>(t: Table<K, A>, op: Op<K, A>, k: K) {
    match op
    case Add(key, _, _) => key == k
    case Use(key) => key == k && Usable(t, k)
    case _ => false
  }

  ghost predicate Ascending<K>(s: seq<K>, f: K -> nat) {
    forall i, j :: 0 <= i < j < |s| ==> f(s[i]) < f(s[j])
  }

  lemma ConsAscends<K>(x: K, w: seq<K>, f: K -> nat)
    requires Ascending(w, f) && forall y | y in w :: f(x) < f(y)
    ensures Ascending([x] + w, f)
  {
    forall i, j | 0 <= i < j < |w| + 1 ensures f(([x] + w)[i]) < f(([x] + w)[j]) {
      assert w[j - 1] in w;
    }
  }

  lemma UnconsAscends<K>(s: seq<K>, f: K -> nat)
    requires Ascending(s, f) && s != []
    ensures Ascending(s[1..], f) && forall y | y in s[1..] :: f(s[0]) < f(y)
  {
  }

  lemma {:induction false} WithoutAscends<K>(s: seq<K>, f: K -> nat, k: K)
    requires Ascending(s, f)
    ensures Ascending(Without(s, k), f)
  {
    hide Ascending;
    if s != [] {
      UnconsAscends(s, f);
      if s[0] != k {
        WithoutAscends(s[1..], f, k);
        WithoutSubset(s[1..], k);
        ConsAscends(s[0], Without(s[1..], k), f);
      }
    }
  }

  lemma {:induction false} WithoutSubset<K>(s: seq<K>, k: K)
    ensures forall x | x in Without(s, k) :: x in s
  {
    if s != [] && s[0] != k {
      WithoutSubset(s[1..], k);
    }
  }

  /** The keys of the table, first to last, are in the order of their last touch. */
  lemma {:induction false} OrderIsRecency<K, A>(c: Config, ops: seq<Op<K, A>>)
    ensures Ascending(After(c, ops).rr.keys, k => LastTouch(c, ops, k))
  {
    if ops != [] {
      var before, op := ops[..|ops| - 1], ops[|ops| - 1];
      var t := After(c, before);
      EveryRunKeeps(c, before);
      OrderIsRecency(c, before);
      var f, g := k => LastTouch(c, before, k), k => LastTouch(c, ops, k);
      StepOrder(c, t, op, f, g, |ops|);
    }
  }

  lemma StepOrder<K, A>(c: Config, t: Table<K, A>, op: Op<K, A>, f: K -> nat, g: K -> nat, n: nat)
    requires Inv(c, t) && Ascending(t.rr.keys, f)
    requires forall k: K :: f(k) < n && g(k) == if Touches(t, op, k) then n else f(k)
    ensures Ascending(Apply(c, t, op).rr.keys, g)
  {
    match op {
      case Add(key, addrs, now) =>
        PutKeeps(c, t, key, addrs, now);
        MovedAscends(t.rr.keys, f, g, key, n);
        var u := Put(c, t, key, addrs, now);
        if |u.rr.keys| > c.maxSize {
          WithoutAscends(u.rr.keys, g, u.rr.keys[0]);
        }
      case Use(key) =>
        if Usable(t, key) {
          MovedAscends(t.rr.keys, f, g, key, n);
        }
      case Remove(key) =>
        WithoutAscends(t.rr.keys, g, key);
      case Clear =>
    }
  }

  lemma MovedAscends<K>(s: seq<K>, f: K -> nat, g: K -> nat, key: K, n: nat)
    requires Distinct(s) && Ascending(s, f)
    requires forall k: K :: f(k) < n && g(k) == if k == key then n else f(k)
    ensures Ascending(Without(s, key) + [key], g)
  {
    WithoutAscends(s, f, key);
    WithoutElements(s, key);
    var w := Without(s, key);
    forall i, j | 0 <= i < j < |w| + 1 ensures g((w + [key])[i]) < g((w + [key])[j]) {
      assert w[i] in w;
      if j < |w| {
        assert w[j] in w;
      }
    }
  }

  lemma AfterSnoc<K, A>(c: Config, ops: seq<Op<K, A>>, op: Op<K, A>)
    ensures After(c, ops + [op]) == Apply(c, After(c, ops), op)
  {
    hide Apply;
    assert (ops + [op])[..|ops|] == ops;
  }

  lemma FirstIsLeastRecent<K, A>(c: Config, ops: seq<Op<K, A>>, k: K)
    requires var t := After(c, ops); k in t.rr.at && t.rr.keys != [] && k != t.rr.keys[0]
    ensures LastTouch(c, ops, After(c, ops).rr.keys[0]) < LastTouch(c, ops, k)
  {
    hide After, LastTouch;
    EveryRunKeeps(c, ops);
    OrderIsRecency(c, ops);
    var s := After(c, ops).rr.keys;
    assert k in s;
    var j: nat :| j < |s| && s[j] == k;
  }

  lemma {:induction false} DistinctCount<K>(s: seq<K>)
    requires Distinct(s)
    ensures |set k | k in s| == |s|
  {
    if s != [] {
      var n := |s| - 1;
      DistinctCount(s[..n]);
      assert s == s[..n] + [s[n]];
      assert (set k | k in s) == (set k | k in s[..n]) + {s[n]};
      assert s[n] !in s[..n];
    }
  }

  lemma KeysCount<K, V>(d: Dict<K, V>)
    requires d.Valid()
    ensures |d.at| == |d.keys|
  {
    DistinctCount(d.keys);
    assert d.at.Keys == set k | k in d.keys;
  }

  lemma PutKeys<K, A>(c: Config, t: Table<K, A>, key: K, addrs: seq<A>, now: real)
    ensures Put(c, t, key, addrs, now).rr.at.Keys == t.rr.at.Keys + {key}
  {
  }

  /** What adding does to the set of cached keys. */
  lemma AddEvicts<K, A>(c: Config, t: Table<K, A>, key: K, addrs: seq<A>, now: real)
    requires Inv(c, t) && c.maxSize >= 1
    ensures var u := Apply(c, t, Add(key, addrs, now));
      if key in t.rr.at || |t.rr.keys| < c.maxSize then u.rr.at.Keys == t.rr.at.Keys + {key}
      else
        && |t.rr.keys| == c.maxSize
        && t.rr.keys[0] in t.rr.at
        && u.rr.at.Keys == t.rr.at.Keys - {t.rr.keys[0]} + {key}
  {
    hide Put, Cycles;
    PutKeeps(c, t, key, addrs, now);
    PutKeys(c, t, key, addrs, now);
    if key !in t.rr.at && |t.rr.keys| == c.maxSize {
      WithoutAbsent(t.rr.keys, key);
      assert t.rr.keys[0] in t.rr.keys;
    }
  }

  lemma SizeIs<K, A>(c: Config, t: Table<K, A>)
    requires Inv(c, t)
    ensures |t.rr.at| == |t.rr.keys|
  {
    KeysCount(t.rr);
  }

  /** Adding drops at most one entry, only at the limit, and then the one last added or handed out longest ago. */
  lemma EvictsLeastRecent<K, A>(c: Config, ops: seq<Op<K, A>>, key: K, addrs: seq<A>, now: real)
    requires c.maxSize >= 1
    ensures var t, u := After(c, ops), After(c, ops + [Add(key, addrs, now)]);
      && key in u.rr.at
      && (forall k | k in u.rr.at :: k in t.rr.at || k == key)
      && (key in t.rr.at || |t.rr.at| < c.maxSize ==> forall k | k in t.rr.at :: k in u.rr.at)
      && (key !in t.rr.at && |t.rr.at| == c.maxSize ==>
            exists e | e in t.rr.at ::
              && u.rr.at.Keys == t.rr.at.Keys - {e} + {key}
              && forall k | k in t.rr.at && k != e :: LastTouch(c, ops, e) < LastTouch(c, ops, k))
  {
    hide After, LastTouch, Apply, Inv;
    var t := After(c, ops);
    AfterSnoc(c, ops, Add(key, addrs, now));
    EveryRunKeeps(c, ops);
    AddEvicts(c, t, key, addrs, now);
    SizeIs(c, t);
    if key !in t.rr.at && |t.rr.at| == c.maxSize {
      var e := t.rr.keys[0];
      forall k | k in t.rr.at && k != e ensures LastTouch(c, ops, e) < LastTouch(c, ops, k) {
        FirstIsLeastRecent(c, ops, k);
      }
    }
  }

  /** The added key is cached afterwards exactly when the limit leaves room for one entry. */
  lemma AddedStaysIffRoom<K, A>(c: Config, ops: seq<Op<K, A>>, key: K, addrs: seq<A>, now: real)
    ensures key in After(c, ops + [Add(key, addrs, now)]).rr.at <==> c.maxSize >= 1
  {
    if c.maxSize >= 1 {
      EvictsLeastRecent(c, ops, key, addrs, now);
    } else {
      EveryRunKeeps(c, ops + [Add(key, addrs, now)]);
    }
  }

  /** What the last `add` of `k` stored, and how often `k` was asked for since. */
  datatype Added<A> = Never | Added(addrs: seq<A>, at: real, uses: nat)

  function LastAdded<K(==), A>(ops: seq<Op<K, A>>, k: K): Added<A> {
    if ops == [] then Never else AddedStep(LastAdded(ops[..|ops| - 1], k), ops[|ops| - 1], k)
  }

  /** The entry agrees with what the run says about the last `add`. */
  ghost predicate Agrees<K, A>(c: Config, t: Table<K, A>, k: K, a: Added<A>) {
    k in t.rr.at ==>
      && a.Added?
      && t.rr.at[k].Valid()
      && t.rr.at[k].addrs == a.addrs
      && (a.addrs != [] ==> t.rr.at[k].View() == Rotated(a.addrs, a.uses))
      && (c.ttl.Some? ==> k in t.stamps && t.stamps[k] == a.at)
  }

  function AddedStep<K(==), A>(a: Added<A>, op: Op<K, A>, k: K): Added<A> {
    match op
    case Add(key, addrs, now) => if key == k then Added(addrs, now, 0) else a
    case Use(key) => if key == k && a.Added? then a.(uses := a.uses + 1) else a
    case _ => a
  }

  lemma StepAgrees<K, A>(c: Config, t: Table<K, A>, op: Op<K, A>, k: K, a: Added<A>)
    requires Agrees(c, t, k, a)
    ensures Agrees(c, Apply(c, t, op), k, AddedStep(a, op, k))
  {
    match op {
      case Add(key, addrs, now) => AddAgrees(c, t, key, addrs, now, k, a);
      case Use(key) => UseAgrees(c, t, key, k, a);
      case Remove(key) =>
      case Clear =>
    }
  }

  lemma AddAgrees<K, A>(c: Config, t: Table<K, A>, key: K, addrs: seq<A>, now: real, k: K, a: Added<A>)
    requires Agrees(c, t, k, a)
    ensures Agrees(c, Trim(c, Put(c, t, key, addrs, now)), k, if key == k then Added(addrs, now, 0) else a)
  {
    hide Rotated;
    if key == k && addrs != [] {
      assert Cycle(addrs, 0).View() == addrs;
      assert Rotated(addrs, 0) == addrs by {
        NoTurn(addrs);
      }
    }
  }

  lemma NoTurn<A>(addrs: seq<A>)
    requires addrs != []
    ensures Rotated(addrs, 0) == addrs
  {
  }

  lemma UseAgrees<K, A>(c: Config, t: Table<K, A>, key: K, k: K, a: Added<A>)
    requires Agrees(c, t, k, a)
    ensures Agrees(c, Apply(c, t, Use(key)), k, AddedStep(a, Use(key), k))
  {
    hide Turned;
    if Usable(t, key) && key == k {
      NextTurns(t.rr.at[k]);
    }
  }

  /** A cached key holds the list of its last `add`, turned on by one for each use since, and the time of that `add`. */
  lemma {:induction false} EntryIsLastAdd<K, A>(c: Config, ops: seq<Op<K, A>>, k: K)
    ensures Agrees(c, After(c, ops), k, LastAdded(ops, k))
  {
    hide Agrees, Apply, AddedStep;
    if ops == [] {
      NothingAgrees(c, k, LastAdded(ops, k));
    } else {
      var before := ops[..|ops| - 1];
      EntryIsLastAdd(c, before, k);
      StepAgrees(c, After(c, before), ops[|ops| - 1], k, LastAdded(before, k));
    }
  }

  lemma NothingAgrees<K, A>(c: Config, k: K, a: Added<A>)
    ensures Agrees(c, Table(Empty(), map[]), k, a)
  {
  }

  /** The k-th list handed out since the last `add` is that `add`'s list rotated by k. */
  lemma NextIsRotation<K, A>(c: Config, ops: seq<Op<K, A>>, k: K)
    requires Usable(After(c, ops), k)
    ensures LastAdded(ops, k).Added? && LastAdded(ops, k).addrs != []
    ensures var a := LastAdded(ops, k);
      After(c, ops).rr.at[k].Valid() &&
      After(c, ops).rr.at[k].Drawn(|a.addrs|).0 == Rotated(a.addrs, a.uses)
  {
    EntryIsLastAdd(c, ops, k);
    EveryRunKeeps(c, ops);
    var l := After(c, ops).rr.at[k];
    WholeTurn(l);
  }

  datatype Next<A> = Addrs(addrs: seq<A>) | KeyError | StopIteration

  class DNSCacheTable<K(==), A> {
    var addrsRr: Dict<K, Cycle<A>>
    var timestamps: map<K, real>
    const ttl: Option<real>
    const maxSize: int

    ghost function Now(): Table<K, A>
      reads this
    {
      Table(addrsRr, timestamps)
    }

    ghost predicate Valid()
      reads this
    {
      Inv(Settings(), Now())
    }

    function Settings(): Config {
      Config(ttl, maxSize)
    }

    constructor (ttl: Option<real>, maxSize: int)
      ensures Valid() && Now() == After(Settings(), [])
      ensures this.ttl == ttl && this.maxSize == maxSize
    {
      this.ttl, this.maxSize := ttl, maxSize;
      addrsRr, timestamps := Empty(), map[];
    }

    method Add(key: K, addrs: seq<A>, now: real)
      requires Valid()
      modifies this
      ensures Valid() && Now() == Apply(Settings(), old(Now()), Op.Add(key, addrs, now))
    {
      ApplyKeeps(Settings(), Now(), Op.Add(key, addrs, now));
      PutKeeps(Settings(), Now(), key, addrs, now);
      if key in addrsRr.at {
        addrsRr := addrsRr.MoveToEnd(key);
      }
      addrsRr := addrsRr.Set(key, Cycle(addrs, 0));
      if ttl.Some? {
        timestamps := timestamps[key := now];
      }
      if |addrsRr.keys| > maxSize {
        var oldest := addrsRr.keys[0];
        addrsRr := addrsRr.Remove(oldest);
        timestamps := timestamps - {oldest};
      }
    }

    method Remove(key: K)
      requires Valid()
      modifies this
      ensures Valid() && Now() == Apply(Settings(), old(Now()), Op.Remove(key))
    {
      ApplyKeeps(Settings(), Now(), Op.Remove(key));
      addrsRr := addrsRr.Remove(key);
      timestamps := timestamps - {key};
    }

    method Clear()
      modifies this
      ensures Valid() && Now() == Apply(Settings(), old(Now()), Op.Clear)
    {
      addrsRr, timestamps := Empty(), map[];
    }

    /** The rotated list; a key that is not cached and an empty list raise, and change nothing. */
    method NextAddrs(key: K) returns (r: Next<A>)
      requires Valid()
      modifies this
      ensures Valid() && Now() == Apply(Settings(), old(Now()), Op.Use(key))
      ensures r.KeyError? <==> key !in old(addrsRr).at
      ensures r.StopIteration? <==> key in old(addrsRr).at && old(addrsRr).at[key].addrs == []
      ensures r.Addrs? ==> old(addrsRr).at[key].Valid() && r.addrs == old(addrsRr).at[key].View()
    {
      ApplyKeeps(Settings(), Now(), Op.Use(key));
      if key !in addrsRr.at {
        return KeyError;
      }
      var loop := addrsRr.at[key];
      var (addrs, turned) := loop.Drawn(|loop.addrs|);
      if loop.addrs == [] {
        return StopIteration;
      }
      WholeTurn(loop);
      addrsRr := addrsRr.Set(key, turned.Drawn(1).1);
      addrsRr := addrsRr.MoveToEnd(key);
      r := Addrs(addrs);
    }

    /** Never a missing timestamp for a cached key. */
    method Expired(key: K, now: real) returns (r: bool)
      requires Valid() && key in addrsRr.at
      ensures r <==> ttl.Some? && timestamps[key] + ttl.value < now
    {
      if ttl.None? {
        return false;
      }
      r := timestamps[key] + ttl.value < now;
    }
  }
}
