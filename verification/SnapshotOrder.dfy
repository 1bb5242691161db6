/** The listing order of the snapshot store: the chain that HEAD's parent links reach, then
    everything else by time (daemon/src/snapshot_store.cpp, orderNewestFirst). */
module SnapshotOrder {
  import opened Models
  import opened Sequences

  type Metas = seq<SnapshotMeta>

  ghost predicate HasId(metas: Metas, id: string) {
    exists i :: 0 <= i < |metas| && metas[i].id == id
  }

  function Ids(metas: Metas): set<string> {
    set i | 0 <= i < |metas| :: metas[i].id
  }

  lemma IdsConcat(a: Metas, b: Metas)
    ensures Ids(a + b) == Ids(a) + Ids(b)
  {
    forall id | id in Ids(a) + Ids(b)
      ensures id in Ids(a + b)
    {
      if id in Ids(a) {
        var i :| 0 <= i < |a| && a[i].id == id;
        assert (a + b)[i].id == id;
      } else {
        var i :| 0 <= i < |b| && b[i].id == id;
        assert (a + b)[|a| + i].id == id;
      }
    }
  }

  lemma IdsNone()
    ensures Ids([]) == {}
  {
  }

  lemma IdsOne(m: SnapshotMeta)
    ensures Ids([m]) == {m.id}
  {
    assert [m][0].id == m.id;
  }

  ghost predicate DistinctIds(metas: Metas) {
    forall i, j :: 0 <= i < j < |metas| ==> metas[i].id != metas[j].id
  }

  lemma {:induction false} FewIds(metas: Metas)
    ensures |Ids(metas)| <= |metas|
    ensures DistinctIds(metas) ==> |Ids(metas)| == |metas|
  {
    if metas == [] {
      IdsNone();
    } else {
      var n := |metas| - 1;
      FewIds(metas[..n]);
      IdsConcat(metas[..n], [metas[n]]);
      IdsOne(metas[n]);
      assert metas == metas[..n] + [metas[n]];
      if DistinctIds(metas) {
        assert metas[n].id !in Ids(metas[..n]);
      }
    }
  }

  lemma SubsetFewer(a: set<string>, b: set<string>)
    requires a < b
    ensures |a| < |b|
  {
    var x :| x in b && x !in a;
    SubsetAtMost(a, b - {x});
  }

  lemma {:induction false} SubsetAtMost(a: set<string>, b: set<string>)
    requires a <= b
    ensures |a| <= |b|
    decreases a
  {
    if a != {} {
      var x :| x in a;
      SubsetAtMost(a - {x}, b - {x});
    }
  }

  // The entry that the index by id holds: the first one.
  function Find(metas: Metas, id: string): (r: Option<SnapshotMeta>)
    ensures r.None? <==> !HasId(metas, id)
    ensures r.Some? ==> r.value.id == id && r.value in metas
  {
    if metas == [] then None
    else if metas[0].id == id then Some(metas[0])
    else
      assert HasId(metas[1..], id) ==> HasId(metas, id);
      assert HasId(metas, id) ==> HasId(metas[1..], id) by {
        if HasId(metas, id) {
          var i :| 0 <= i < |metas| && metas[i].id == id;
          assert metas[1..][i - 1].id == id;
        }
      }
      Find(metas[1..], id)
  }

  // ---------------------------------------------------------------- the chain

  function Walk(metas: Metas, id: string, taken: set<string>): (chain: Metas)
    decreases Ids(metas) - taken
  {
    if id in taken then []
    else
      match Find(metas, id)
      case None => []
      case Some(meta) =>
        assert id in Ids(metas);
        [meta] + match meta.parent
                 case None => []
                 case Some(parent) => Walk(metas, parent, taken + {id})
  }

  function Chain(metas: Metas, head: Option<string>): Metas {
    match head
    case None => []
    case Some(id) => Walk(metas, id, {})
  }

  // What it means to follow the parent links from `id`, visiting no id twice and none of `taken`.
  ghost predicate Follows(metas: Metas, id: string, taken: set<string>, chain: Metas) {
    && (chain == [] <==> id in taken || !HasId(metas, id))
    && (chain != [] ==> chain[0].id == id)
    && (forall k :: 0 <= k < |chain| ==> chain[k].id !in taken && Find(metas, chain[k].id) == Some(chain[k]))
    && DistinctIds(chain)
    && (forall k :: 0 <= k < |chain| - 1 ==> chain[k].parent == Some(chain[k + 1].id))
    && (chain != [] ==> StopsAt(metas, taken + Ids(chain), chain[|chain| - 1]))
  }

  // The three ways a walk ends: no parent, a parent that is not listed, a parent seen before.
  ghost predicate StopsAt(metas: Metas, seen: set<string>, last: SnapshotMeta) {
    last.parent.None? || !HasId(metas, last.parent.value) || last.parent.value in seen
  }

  lemma FollowsFurther(metas: Metas, meta: SnapshotMeta, taken: set<string>, tail: Metas)
    requires meta.id !in taken && Find(metas, meta.id) == Some(meta) && meta.parent.Some?
    requires Follows(metas, meta.parent.value, taken + {meta.id}, tail)
    ensures Follows(metas, meta.id, taken, [meta] + tail)
  {
    var chain := [meta] + tail;
    IdsConcat([meta], tail);
    IdsOne(meta);
    IdsNone();
    assert taken + Ids(chain) == taken + {meta.id} + Ids(tail);
    assert chain[|chain| - 1] == if tail == [] then meta else tail[|tail| - 1];
  }

  lemma {:induction false} WalkFollows(metas: Metas, id: string, taken: set<string>)
    ensures Follows(metas, id, taken, Walk(metas, id, taken))
    decreases Ids(metas) - taken
  {
    hide Walk, Ids;
    WalkStops(metas, id, taken);
    if id !in taken {
      WalkUnfolds(metas, id, taken);
      IdIsListed(metas, id);
      if HasId(metas, id) {
        var meta := Find(metas, id).value;
        if meta.parent.Some? {
          WalkFollows(metas, meta.parent.value, taken + {id});
          hide Follows;
          FollowsFurther(metas, meta, taken, Walk(metas, meta.parent.value, taken + {id}));
        }
      }
    }
  }

  // Following the links leaves no choice.
  lemma {:induction false} OneWalk(metas: Metas, id: string, taken: set<string>, chain: Metas)
    requires Follows(metas, id, taken, chain)
    ensures chain == Walk(metas, id, taken)
    decreases |chain|
  {
    hide Ids, Walk;
    WalkStops(metas, id, taken);
    if id !in taken {
      WalkUnfolds(metas, id, taken);
    }
    if chain != [] {
      IdIsListed(metas, id);
      IdsOne(chain[0]);
      var tail := chain[1..];
      if tail != [] {
        assert chain[0].parent == Some(chain[1].id);
        IdsConcat([chain[0]], tail);
        assert chain == [chain[0]] + tail;
        assert taken + Ids(chain) == taken + {id} + Ids(tail);
        assert tail[|tail| - 1] == chain[|chain| - 1];
        assert Follows(metas, chain[1].id, taken + {id}, tail);
        OneWalk(metas, chain[1].id, taken + {id}, tail);
      } else {
        assert chain == [chain[0]];
        StopsHere(metas, chain[0], taken + {id});
      }
      assert chain == [chain[0]] + tail;
    }
  }

  lemma StopsHere(metas: Metas, last: SnapshotMeta, seen: set<string>)
    requires StopsAt(metas, seen, last)
    ensures last.parent.Some? ==> Walk(metas, last.parent.value, seen) == []
  {
  }

  // ---------------------------------------------------------------- the rest, by time

  function Without(metas: Metas, ids: set<string>): Metas {
    if metas == [] then []
    else (if metas[0].id in ids then [] else [metas[0]]) + Without(metas[1..], ids)
  }

  function With(metas: Metas, ids: set<string>): Metas {
    if metas == [] then []
    else (if metas[0].id in ids then [metas[0]] else []) + With(metas[1..], ids)
  }

  function AtTime(metas: Metas, t: int): Metas {
    if metas == [] then []
    else (if metas[0].createdAtUtc == t then [metas[0]] else []) + AtTime(metas[1..], t)
  }

  ghost predicate NewestFirst(metas: Metas) {
    forall i, j :: 0 <= i < j < |metas| ==> metas[i].createdAtUtc >= metas[j].createdAtUtc
  }

  // std::stable_sort by non-increasing time: in order, and entries of one time keep their order.
  ghost predicate IsStableSort(input: Metas, output: Metas) {
    NewestFirst(output) && multiset(output) == multiset(input) && forall t :: AtTime(output, t) == AtTime(input, t)
  }

  function Insert(m: SnapshotMeta, sorted: Metas): Metas {
    if sorted == [] || m.createdAtUtc >= sorted[0].createdAtUtc then [m] + sorted
    else [sorted[0]] + Insert(m, sorted[1..])
  }

  function Sort(metas: Metas): Metas {
    if metas == [] then [] else Insert(metas[0], Sort(metas[1..]))
  }

  lemma NewestPrepends(m: SnapshotMeta, s: Metas)
    requires NewestFirst(s) && forall x :: x in s ==> x.createdAtUtc <= m.createdAtUtc
    ensures NewestFirst([m] + s)
  {
  }

  lemma {:induction false} InsertBag(m: SnapshotMeta, sorted: Metas)
    ensures multiset(Insert(m, sorted)) == multiset(sorted) + multiset{m}
  {
    if sorted != [] && m.createdAtUtc < sorted[0].createdAtUtc {
      InsertBag(m, sorted[1..]);
      assert sorted == [sorted[0]] + sorted[1..];
    }
  }

  lemma {:induction false} InsertSorts(m: SnapshotMeta, sorted: Metas)
    requires NewestFirst(sorted)
    ensures NewestFirst(Insert(m, sorted))
  {
    if sorted == [] || m.createdAtUtc >= sorted[0].createdAtUtc {
      NewestPrepends(m, sorted);
    } else {
      var rest := Insert(m, sorted[1..]);
      InsertSorts(m, sorted[1..]);
      InsertBag(m, sorted[1..]);
      forall x | x in rest
        ensures x.createdAtUtc <= sorted[0].createdAtUtc
      {
        assert x in multiset(rest);
      }
      NewestPrepends(sorted[0], rest);
    }
  }

  lemma {:induction false} SortBag(metas: Metas)
    ensures multiset(Sort(metas)) == multiset(metas) && NewestFirst(Sort(metas))
  {
    if metas != [] {
      SortBag(metas[1..]);
      InsertBag(metas[0], Sort(metas[1..]));
      InsertSorts(metas[0], Sort(metas[1..]));
      assert metas == [metas[0]] + metas[1..];
    }
  }

  lemma {:induction false} InsertAtTime(m: SnapshotMeta, sorted: Metas, t: int)
    ensures AtTime(Insert(m, sorted), t) == AtTime([m] + sorted, t)
  {
    assert ([m] + sorted)[1..] == sorted;
    if sorted != [] && m.createdAtUtc < sorted[0].createdAtUtc {
      var rest := Insert(m, sorted[1..]);
      InsertAtTime(m, sorted[1..], t);
      assert ([sorted[0]] + rest)[1..] == rest;
      assert ([m] + sorted[1..])[1..] == sorted[1..];
    }
  }

  lemma {:induction false} SortIsStable(metas: Metas)
    ensures IsStableSort(metas, Sort(metas))
  {
    if metas != [] {
      SortIsStable(metas[1..]);
      SortBag(metas);
      forall t
        ensures AtTime(Sort(metas), t) == AtTime(metas, t)
      {
        var tail := Sort(metas[1..]);
        InsertAtTime(metas[0], tail, t);
        assert ([metas[0]] + tail)[1..] == tail;
      }
    }
  }

  // Sorting stably leaves no choice.
  lemma {:induction false} OneStableSort(a: Metas, b: Metas)
    requires NewestFirst(a) && NewestFirst(b) && multiset(a) == multiset(b)
    requires forall t :: AtTime(a, t) == AtTime(b, t)
    ensures a == b
  {
    hide AtTime;
    assert |a| == |multiset(a)| == |multiset(b)| == |b|;
    if a != [] {
      FirstTime(a, b);
      FirstTime(b, a);
      SameFirst(a, b, a[0].createdAtUtc);
      SameTailBag(a, b);
      forall u
        ensures AtTime(a[1..], u) == AtTime(b[1..], u)
      {
        AtTimeHead(a, u);
        AtTimeHead(b, u);
        assert AtTime(a, u) == AtTime(b, u);
        SameTail([a[0]], AtTime(a[1..], u), AtTime(b[1..], u));
      }
      OneStableSort(a[1..], b[1..]);
    }
  }

  lemma SameFirst(a: Metas, b: Metas, t: int)
    requires a != [] && b != [] && a[0].createdAtUtc == b[0].createdAtUtc == t
    requires AtTime(a, t) == AtTime(b, t)
    ensures a[0] == b[0]
  {
    assert AtTime(a, t)[0] == a[0] && AtTime(b, t)[0] == b[0];
  }

  lemma SameTailBag(a: Metas, b: Metas)
    requires a != [] && b != [] && a[0] == b[0] && multiset(a) == multiset(b)
    ensures multiset(a[1..]) == multiset(b[1..])
  {
    assert a == [a[0]] + a[1..] && b == [b[0]] + b[1..];
    assert multiset(a[1..]) == multiset(a) - multiset{a[0]};
    assert multiset(b[1..]) == multiset(b) - multiset{b[0]};
  }

  lemma AtTimeHead(s: Metas, t: int)
    requires s != []
    ensures AtTime(s, t) == if s[0].createdAtUtc == t then [s[0]] + AtTime(s[1..], t) else AtTime(s[1..], t)
  {
  }

  lemma SameTail(h: Metas, a: Metas, b: Metas)
    ensures h + a == h + b ==> a == b
  {
    if h + a == h + b {
      assert (h + a)[|h|..] == a && (h + b)[|h|..] == b;
    }
  }

  lemma FirstTime(a: Metas, b: Metas)
    requires a != [] && b != [] && NewestFirst(b) && multiset(a) == multiset(b)
    ensures a[0].createdAtUtc <= b[0].createdAtUtc
  {
    assert a[0] in multiset(b);
    var i :| 0 <= i < |b| && b[i] == a[0];
  }

  // ---------------------------------------------------------------- the listing

  function Ordered(metas: Metas, head: Option<string>): Metas {
    var chain := Chain(metas, head);
    chain + Sort(Without(metas, Ids(chain)))
  }

  ghost predicate IsListing(metas: Metas, head: Option<string>, chain: Metas, rest: Metas) {
    && (head.None? ==> chain == [])
    && (head.Some? ==> Follows(metas, head.value, {}, chain))
    && IsStableSort(Without(metas, Ids(chain)), rest)
  }

  /** For any parent links, dangling or cyclic, the listing is the walk from HEAD, each id once, and
      then the entries off that walk, sorted stably; nothing else satisfies this description. */
  lemma OrderedIsTheListing(metas: Metas, head: Option<string>, chain: Metas, rest: Metas)
    ensures IsListing(metas, head, Chain(metas, head), Sort(Without(metas, Ids(Chain(metas, head)))))
    ensures IsListing(metas, head, chain, rest) ==> chain + rest == Ordered(metas, head)
  {
    var off := Without(metas, Ids(Chain(metas, head)));
    SortIsStable(off);
    if head.Some? {
      WalkFollows(metas, head.value, {});
    }
    if IsListing(metas, head, chain, rest) {
      if head.Some? {
        OneWalk(metas, head.value, {}, chain);
      }
      OneStableSort(rest, Sort(off));
    }
  }

  // How many entries have this id.
  function Count(metas: Metas, id: string): nat {
    |With(metas, {id})|
  }

  lemma {:induction false} WithMembers(metas: Metas, ids: set<string>, m: SnapshotMeta)
    ensures m in With(metas, ids) <==> m in metas && m.id in ids
    ensures m in Without(metas, ids) <==> m in metas && m.id !in ids
  {
    if metas != [] {
      WithMembers(metas[1..], ids, m);
      assert m in metas <==> m == metas[0] || m in metas[1..];
    }
  }

  lemma {:induction false} WithBag(metas: Metas, ids: set<string>)
    ensures multiset(With(metas, ids)) + multiset(Without(metas, ids)) == multiset(metas)
  {
    if metas != [] {
      WithBag(metas[1..], ids);
      assert metas == [metas[0]] + metas[1..];
    }
  }

  lemma {:induction false} WithCounts(metas: Metas, ids: set<string>, m: SnapshotMeta)
    ensures multiset(With(metas, ids))[m] == if m.id in ids then multiset(metas)[m] else 0
  {
    if metas != [] {
      WithCounts(metas[1..], ids, m);
      assert metas == [metas[0]] + metas[1..];
    }
  }

  lemma SameBagSameCount(a: Metas, b: Metas, id: string)
    requires multiset(a) == multiset(b)
    ensures Count(a, id) == Count(b, id)
  {
    var x, y := multiset(With(a, {id})), multiset(With(b, {id}));
    forall m
      ensures x[m] == y[m]
    {
      WithCounts(a, {id}, m);
      WithCounts(b, {id}, m);
    }
    assert x == y;
  }

  lemma {:induction false} CountConcat(a: Metas, b: Metas, id: string)
    ensures Count(a + b, id) == Count(a, id) + Count(b, id)
  {
    if a == [] {
      assert a + b == b;
    } else {
      CountConcat(a[1..], b, id);
      assert (a + b)[1..] == a[1..] + b;
    }
  }

  lemma {:induction false} CountDistinct(metas: Metas, id: string)
    requires DistinctIds(metas)
    ensures Count(metas, id) == if HasId(metas, id) then 1 else 0
  {
    if metas != [] {
      CountDistinct(metas[1..], id);
      assert HasId(metas, id) <==> metas[0].id == id || HasId(metas[1..], id) by {
        if HasId(metas, id) && metas[0].id != id {
          var i :| 0 <= i < |metas| && metas[i].id == id;
          assert metas[1..][i - 1].id == id;
        }
        if HasId(metas[1..], id) {
          var i :| 0 <= i < |metas[1..]| && metas[1..][i].id == id;
          assert metas[i + 1].id == id;
        }
      }
    }
  }

  lemma CountNone(metas: Metas, id: string)
    requires forall m :: m in metas ==> m.id != id
    ensures Count(metas, id) == 0
  {
    if With(metas, {id}) != [] {
      WithMembers(metas, {id}, With(metas, {id})[0]);
    }
  }

  lemma OnlyOne(metas: Metas, id: string, m: SnapshotMeta, c: SnapshotMeta)
    requires Count(metas, id) == 1 && m in metas && c in metas && m.id == c.id == id
    ensures m == c && multiset(metas)[m] == 1
  {
    var w := With(metas, {id});
    WithMembers(metas, {id}, m);
    WithMembers(metas, {id}, c);
    assert w == [w[0]];
    WithCounts(metas, {id}, m);
  }

  ghost predicate ChainIdsOccurOnce(metas: Metas, chain: Metas) {
    forall k :: 0 <= k < |chain| ==> Count(metas, chain[k].id) == 1
  }

  /** The listing loses and repeats nothing exactly when no entry off the chain shares its id
      with a chain member: such an entry is dropped. */
  lemma OrderedIsPermutationIff(metas: Metas, head: Option<string>)
    ensures multiset(Ordered(metas, head)) == multiset(metas)
        <==> ChainIdsOccurOnce(metas, Chain(metas, head))
  {
    hide Walk, Sort, With, Without, Ids, Count;
    var chain := Chain(metas, head);
    var ids := Ids(chain);
    var off := Without(metas, ids);
    WithBag(metas, ids);
    if head.Some? {
      WalkFollows(metas, head.value, {});
    }
    assert forall k :: 0 <= k < |chain| ==> Find(metas, chain[k].id) == Some(chain[k]);
    SortBag(off);
    assert multiset(Ordered(metas, head)) == multiset(chain) + multiset(off);
    if multiset(Ordered(metas, head)) == multiset(metas) {
      forall k | 0 <= k < |chain|
        ensures Count(metas, chain[k].id) == 1
      {
        OnceInListing(metas, chain, k);
        SameBagSameCount(Ordered(metas, head), metas, chain[k].id);
      }
    }
    if ChainIdsOccurOnce(metas, chain) {
      ChainIsAllOfIt(metas, chain);
    }
  }

  lemma OnceInListing(metas: Metas, chain: Metas, k: nat)
    requires DistinctIds(chain) && k < |chain|
    ensures Count(chain + Sort(Without(metas, Ids(chain))), chain[k].id) == 1
  {
    SortBag(Without(metas, Ids(chain)));
    var off, id := Sort(Without(metas, Ids(chain))), chain[k].id;
    CountConcat(chain, off, id);
    CountDistinct(chain, id);
    forall m | m in off
      ensures m.id != id
    {
      assert m in multiset(off);
      WithMembers(metas, Ids(chain), m);
    }
    CountNone(off, id);
  }

  lemma ChainIsAllOfIt(metas: Metas, chain: Metas)
    requires DistinctIds(chain) && ChainIdsOccurOnce(metas, chain)
    requires forall k :: 0 <= k < |chain| ==> chain[k] in metas
    ensures multiset(chain) == multiset(With(metas, Ids(chain)))
  {
    forall m
      ensures multiset(chain)[m] == multiset(With(metas, Ids(chain)))[m]
    {
      WithCounts(metas, Ids(chain), m);
      if m.id in Ids(chain) {
        var k :| 0 <= k < |chain| && chain[k].id == m.id;
        if m in metas {
          OnlyOne(metas, m.id, m, chain[k]);
          CountDistinct(chain, m.id);
          OnlyOne(chain, m.id, m, m);
        }
      }
    }
  }

  /** Of two entries under the id that HEAD names, the second is dropped. */
  lemma SharedIdIsDropped(a: SnapshotMeta, b: SnapshotMeta)
    requires a.id == b.id && (a.parent == None || a.parent == Some(a.id))
    ensures Ordered([a, b], Some(a.id)) == [a]
    ensures multiset(Ordered([a, b], Some(a.id))) != multiset([a, b])
  {
    var metas := [a, b];
    WalkUnfolds(metas, a.id, {});
    WalkStops(metas, a.id, {a.id});
    assert {} + {a.id} == {a.id};
    var chain := Chain(metas, Some(a.id));
    assert chain == [a];
    IdsOne(a);
    WithoutHead(metas, {a.id});
    assert metas[1..] == [b];
    WithoutHead([b], {a.id});
    assert Without(metas, {a.id}) == [] && Sort([]) == [];
    assert |multiset(metas)| == 2 && |multiset([a])| == 1;
  }

  /** With distinct ids the listing is a permutation. */
  lemma DistinctIsPermutation(metas: Metas, head: Option<string>)
    requires DistinctIds(metas)
    ensures multiset(Ordered(metas, head)) == multiset(metas)
  {
    if head.Some? {
      WalkFollows(metas, head.value, {});
    }
    forall k | 0 <= k < |Chain(metas, head)|
      ensures Count(metas, Chain(metas, head)[k].id) == 1
    {
      CountDistinct(metas, Chain(metas, head)[k].id);
    }
    OrderedIsPermutationIff(metas, head);
  }

  lemma {:induction false} SomeCount(metas: Metas, id: string)
    requires HasId(metas, id)
    ensures Count(metas, id) > 0
  {
    var i :| 0 <= i < |metas| && metas[i].id == id;
    WithMembers(metas, {id}, metas[i]);
  }

  lemma CountsDistinct(metas: Metas)
    requires forall id :: Count(metas, id) <= 1
    ensures DistinctIds(metas)
  {
    forall i, j | 0 <= i < j < |metas|
      ensures metas[i].id != metas[j].id
    {
      var id := metas[i].id;
      assert metas[..j][i].id == id;
      SomeCount(metas[..j], id);
      CountConcat(metas[..j], metas[j..], id);
      assert metas == metas[..j] + metas[j..];
      if HasId(metas[j..], id) {
        SomeCount(metas[j..], id);
      }
      assert metas[j..][0] == metas[j];
    }
  }

  lemma OrderedIsDistinct(metas: Metas, head: Option<string>)
    requires DistinctIds(metas)
    ensures DistinctIds(Ordered(metas, head))
  {
    DistinctIsPermutation(metas, head);
    forall id
      ensures Count(Ordered(metas, head), id) <= 1
    {
      SameBagSameCount(Ordered(metas, head), metas, id);
      CountDistinct(metas, id);
    }
    CountsDistinct(Ordered(metas, head));
  }

  // ---------------------------------------------------------------- the loops

  lemma {:induction false} FindLast(metas: Metas, m: SnapshotMeta, id: string)
    ensures Find(metas + [m], id) == if HasId(metas, id) then Find(metas, id) else if m.id == id then Some(m) else None
  {
    if metas == [] {
      assert metas + [m] == [m];
    } else {
      FindLast(metas[1..], m, id);
      assert (metas + [m])[1..] == metas[1..] + [m];
      if metas[0].id != id {
        assert HasId(metas, id) <==> HasId(metas[1..], id) by {
          assert Find(metas, id) == Find(metas[1..], id);
        }
      }
    }
  }

  ghost predicate Indexes(byId: map<string, nat>, metas: Metas, all: Metas) {
    && (forall id :: id in byId <==> HasId(metas, id))
    && (forall id :: id in byId ==> byId[id] < |all| && Find(metas, id) == Some(all[byId[id]]))
  }

  // emplace keeps the entry that is already there.
  method IndexById(metas: Metas) returns (byId: map<string, nat>)
    ensures Indexes(byId, metas, metas)
  {
    byId := map[];
    for i := 0 to |metas|
      invariant Indexes(byId, metas[..i], metas)
    {
      assert metas[..i + 1] == metas[..i] + [metas[i]];
      forall id
        ensures Find(metas[..i + 1], id)
             == if HasId(metas[..i], id) then Find(metas[..i], id)
                else if metas[i].id == id then Some(metas[i]) else None
      {
        FindLast(metas[..i], metas[i], id);
      }
      if metas[i].id !in byId {
        byId := byId[metas[i].id := i];
      }
    }
    assert metas[..|metas|] == metas;
  }

  method WalkChain(metas: Metas, byId: map<string, nat>, start: string) returns (ordered: Metas, taken: set<string>)
    requires Indexes(byId, metas, metas)
    ensures ordered == Walk(metas, start, {})
    ensures forall id :: HasId(metas, id) ==> (id in taken <==> id in Ids(ordered))
  {
    hide Walk, HasId, Ids;
    ordered, taken := [], {};
    var id := start;
    ghost var rest := Walk(metas, id, taken);
    IdsNone();
    assert ordered + rest == rest;
    while id !in taken
      invariant rest == Walk(metas, id, taken)
      invariant ordered + rest == Walk(metas, start, {})
      invariant Ids(ordered) == taken
      decreases Ids(metas) - taken
    {
      WalkUnfolds(metas, id, taken);
      taken := taken + {id};
      if id !in byId {
        break;
      }
      var meta := metas[byId[id]];
      IdIsListed(metas, id);
      IdsConcat(ordered, [meta]);
      IdsOne(meta);
      FirstOfRest(ordered, rest);
      ordered, rest := ordered + [meta], rest[1..];
      if meta.parent.None? {
        break;
      }
      id := meta.parent.value;
    }
    WalkStops(metas, id, taken);
    assert rest == [];
  }

  lemma FirstOfRest(done: Metas, rest: Metas)
    requires rest != []
    ensures done + [rest[0]] + rest[1..] == done + rest
  {
  }

  lemma IdIsListed(metas: Metas, id: string)
    ensures id in Ids(metas) <==> HasId(metas, id)
  {
  }

  lemma WalkStops(metas: Metas, id: string, taken: set<string>)
    ensures id in taken ==> Walk(metas, id, taken) == []
  {
  }

  lemma WalkUnfolds(metas: Metas, id: string, taken: set<string>)
    requires id !in taken
    ensures Walk(metas, id, taken)
         == match Find(metas, id)
            case None => []
            case Some(meta) =>
              if meta.parent.None? then [meta] else [meta] + Walk(metas, meta.parent.value, taken + {id})
  {
  }

  lemma {:induction false} SameWithout(metas: Metas, a: set<string>, b: set<string>)
    requires forall id :: HasId(metas, id) ==> (id in a <==> id in b)
    ensures Without(metas, a) == Without(metas, b)
  {
    if metas != [] {
      assert metas[0].id in a <==> metas[0].id in b by {
        assert HasId(metas, metas[0].id);
      }
      forall id | HasId(metas[1..], id)
        ensures id in a <==> id in b
      {
        var i :| 0 <= i < |metas[1..]| && metas[1..][i].id == id;
        assert metas[i + 1].id == id;
      }
      SameWithout(metas[1..], a, b);
    }
  }

  lemma {:induction false} WithoutConcat(a: Metas, b: Metas, ids: set<string>)
    ensures Without(a + b, ids) == Without(a, ids) + Without(b, ids)
  {
    if a == [] {
      assert a + b == b;
    } else {
      hide Without;
      WithoutConcat(a[1..], b, ids);
      WithoutHead(a, ids);
      WithoutHead(a + b, ids);
      assert (a + b)[1..] == a[1..] + b;
      Regroup([a[0]], Without(a[1..], ids), Without(b, ids));
    }
  }

  lemma WithoutHead(metas: Metas, ids: set<string>)
    requires metas != []
    ensures Without(metas, ids)
         == if metas[0].id in ids then Without(metas[1..], ids) else [metas[0]] + Without(metas[1..], ids)
  {
  }

  method Untaken(metas: Metas, taken: set<string>) returns (rest: Metas)
    ensures rest == Without(metas, taken)
  {
    rest := [];
    for i := 0 to |metas|
      invariant rest == Without(metas[..i], taken)
    {
      assert metas[..i + 1] == metas[..i] + [metas[i]];
      WithoutConcat(metas[..i], [metas[i]], taken);
      if metas[i].id !in taken {
        rest := rest + [metas[i]];
      }
    }
    assert metas[..|metas|] == metas;
  }

  method OrderNewestFirst(metas: Metas, head: Option<string>) returns (ordered: Metas)
    ensures ordered == Ordered(metas, head)
  {
    var byId := IndexById(metas);
    var taken := {};
    ordered := [];
    if head.Some? {
      ordered, taken := WalkChain(metas, byId, head.value);
    }
    var rest := Untaken(metas, taken);
    SameWithout(metas, taken, Ids(ordered));
    ordered := ordered + Sort(rest);
  }
}
