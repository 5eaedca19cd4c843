/** One shard of the block cache (util/cache.cc, LRUCache): entries in a circular list
    from the oldest to the newest, the hash table over the same entries, and a count of
    references on each. */
module LruCaches {
  import opened HandleTables
  import opened Rings

  // ----- what is held and what is freed -----

  datatype Load = Load(value: int, charge: nat)

  /** `live` are the entries allocated and not freed, `deleted` those whose deleter has
      run, in that order; `out` are the handles that callers hold. */
  datatype Book = Book(infos: Infos, loads: map<Id, Load>, refs: map<Id, nat>, usage: int, order: seq<Id>,
                       out: multiset<Id>, live: seq<Id>, deleted: seq<Id>, unused: Id)

  function Sum(loads: map<Id, Load>, live: seq<Id>): int {
    if live == [] then 0 else (if live[0] in loads then loads[live[0]].charge else 0) + Sum(loads, live[1..])
  }

  function Cached(b: Book, id: Id): nat { if id in b.order then 1 else 0 }

  /** An entry that was ever made is either live or was deleted. A live one is counted
      once for each handle on it, once if it is cached, and once for each reference that
      is about to be dropped. */
  predicate EntryOk(b: Book, extra: multiset<Id>, id: Id) {
    && (id in b.live || id in b.deleted <==> 0 < id < b.unused)
    && (id in b.live <==> id in b.infos) && (id in b.live <==> id in b.loads) && (id in b.live <==> id in b.refs)
    && (id in b.live ==> id !in b.deleted && b.refs[id] == b.out[id] + extra[id] + Cached(b, id) && b.refs[id] > 0)
    && (id !in b.live ==> b.out[id] == 0 && extra[id] == 0 && id !in b.order)
  }

  ghost predicate EntriesOk(b: Book, extra: multiset<Id>) { forall id :: EntryOk(b, extra, id) }

  ghost predicate Inv(b: Book, extra: multiset<Id>) {
    EntriesOk(b, extra) && b.unused > 0 && NoDup(b.live) && NoDup(b.deleted) && NoDup(b.order) &&
    b.usage == Sum(b.loads, b.live)
  }

  lemma {:induction false} Entry(b: Book, extra: multiset<Id>, id: Id)
    requires Inv(b, extra)
    ensures EntryOk(b, extra, id)
  {
  }

  /** Dropping one reference; the last one frees the entry. */
  function Unrefd(b: Book, e: Id): Book
    requires e in b.refs && e in b.loads && b.refs[e] > 0
  {
    if b.refs[e] > 1 then b.(refs := b.refs[e := b.refs[e] - 1])
    else b.(refs := b.refs - {e}, loads := b.loads - {e}, infos := b.infos - {e}, usage := b.usage - b.loads[e].charge,
            live := Without(b.live, e), deleted := b.deleted + [e])
  }

  lemma {:induction false} SumFrame(loads: map<Id, Load>, loads': map<Id, Load>, live: seq<Id>)
    requires forall id :: id in live ==> (id in loads <==> id in loads') && (id in loads ==> loads'[id] == loads[id])
    ensures Sum(loads', live) == Sum(loads, live)
  {
    if live != [] {
      assert live[0] in live;
      assert forall id :: id in live[1..] ==> id in live;
      SumFrame(loads, loads', live[1..]);
    }
  }

  lemma {:induction false} SumWithout(loads: map<Id, Load>, live: seq<Id>, e: Id)
    requires e in live && e in loads
    ensures Sum(loads, Without(live, e)) == Sum(loads, live) - loads[e].charge
  {
    if live[0] != e {
      SumWithout(loads, live[1..], e);
      assert ([live[0]] + Without(live[1..], e))[1..] == Without(live[1..], e);
    }
  }

  lemma {:induction false} SumAdd(loads: map<Id, Load>, live: seq<Id>, e: Id)
    requires e in loads
    ensures Sum(loads, live + [e]) == Sum(loads, live) + loads[e].charge
  {
    if live == [] {
      assert (live + [e])[1..] == [];
    } else {
      SumAdd(loads, live[1..], e);
      assert (live + [e])[1..] == live[1..] + [e];
    }
  }

  lemma {:induction false} Live(b: Book, extra: multiset<Id>, e: Id)
    requires Inv(b, extra) && (e in b.order || b.out[e] > 0 || extra[e] > 0)
    ensures e in b.live && e !in b.deleted && e in b.refs && e in b.loads && e in b.infos && b.refs[e] > 0 &&
            0 < e < b.unused
  {
    Entry(b, extra, e);
  }

  lemma {:induction false} LastGone(b: Book, extra: multiset<Id>, e: Id, id: Id)
    requires Inv(b, extra) && extra[e] > 0 && e in b.refs && e in b.loads && b.refs[e] == 1
    ensures EntryOk(Unrefd(b, e), extra - multiset{e}, id)
  {
    hide Without;
    Entry(b, extra, id);
    Entry(b, extra, e);
    WithoutHas(b.live, e);
    assert id in b.deleted + [e] <==> id in b.deleted || id == e;
  }

  lemma {:induction false} AppendNoDup(s: seq<Id>, e: Id)
    requires NoDup(s) && e !in s
    ensures NoDup(s + [e]) && forall id :: id in s + [e] <==> id in s || id == e
  {
  }

  /** A dropped reference is settled, and an entry is freed when the last one goes. */
  lemma {:induction false} UnrefKeeps(b: Book, extra: multiset<Id>, e: Id)
    requires Inv(b, extra) && extra[e] > 0
    ensures e in b.refs && e in b.loads && b.refs[e] > 0 && Inv(Unrefd(b, e), extra - multiset{e})
  {
    hide EntryOk, Without, Sum, NoDup;
    Live(b, extra, e);
    var b' := Unrefd(b, e);
    if b.refs[e] == 1 {
      WithoutHas(b.live, e);
      SumWithout(b.loads, b.live, e);
      SumFrame(b.loads, b'.loads, b'.live);
      AppendNoDup(b.deleted, e);
      forall id ensures EntryOk(b', extra - multiset{e}, id) { LastGone(b, extra, e, id); }
    } else {
      forall id ensures EntryOk(b', extra - multiset{e}, id) { OneLess(b, extra, e, id); }
    }
  }

  lemma {:induction false} OneLess(b: Book, extra: multiset<Id>, e: Id, id: Id)
    requires Inv(b, extra) && extra[e] > 0 && e in b.refs && e in b.loads && b.refs[e] > 1
    ensures EntryOk(Unrefd(b, e), extra - multiset{e}, id)
  {
    Entry(b, extra, id);
    Entry(b, extra, e);
  }

  /** An entry leaves the cache: its reference is now one to be dropped. */
  lemma {:induction false} TakeOut(b: Book, e: Id)
    requires Inv(b, multiset{}) && e in b.order
    ensures Inv(b.(order := Without(b.order, e)), multiset{e})
  {
    hide Without;
    WithoutHas(b.order, e);
    var b' := b.(order := Without(b.order, e));
    forall id ensures EntryOk(b', multiset{e}, id) { Entry(b, multiset{}, id); }
  }

  lemma {:induction false} GiveBack(b: Book, e: Id)
    requires Inv(b, multiset{}) && b.out[e] > 0
    ensures Inv(b.(out := b.out - multiset{e}), multiset{e})
  {
    var b' := b.(out := b.out - multiset{e});
    forall id ensures EntryOk(b', multiset{e}, id) { Entry(b, multiset{}, id); }
  }

  /** Found again: one more handle, and the newest. */
  function Touched(b: Book, e: Id): Book
    requires e in b.refs
  {
    b.(refs := b.refs[e := b.refs[e] + 1], order := Without(b.order, e) + [e], out := b.out + multiset{e})
  }

  lemma {:induction false} TouchKeeps(b: Book, e: Id)
    requires Inv(b, multiset{}) && e in b.order
    ensures e in b.refs && Inv(Touched(b, e), multiset{})
  {
    hide Without, NoDup;
    WithoutHas(b.order, e);
    AppendNoDup(Without(b.order, e), e);
    Live(b, multiset{}, e);
    forall id ensures EntryOk(Touched(b, e), multiset{}, id) { Entry(b, multiset{}, id); }
  }

  /** A new entry: one reference for the cache, one for the handle. */
  function Added(b: Book, info: Info, load: Load): Book {
    var e := b.unused;
    b.(infos := b.infos[e := info], loads := b.loads[e := load], refs := b.refs[e := 2], usage := b.usage + load.charge,
       order := b.order + [e], out := b.out + multiset{e}, live := b.live + [e], unused := e + 1)
  }

  lemma {:induction false} Unused(b: Book)
    requires Inv(b, multiset{})
    ensures b.unused > 0 && b.unused !in b.order && b.unused !in b.live && b.unused !in b.deleted &&
            b.out[b.unused] == 0
  {
    Entry(b, multiset{}, b.unused);
  }

  lemma {:induction false} AddEntry(b: Book, info: Info, load: Load, id: Id)
    requires EntryOk(b, multiset{}, id) && b.unused !in b.order && b.unused !in b.live && b.unused !in b.deleted &&
             b.out[b.unused] == 0 && b.unused > 0
    ensures EntryOk(Added(b, info, load), multiset{}, id)
  {
    var e := b.unused;
    assert id in b.order + [e] <==> id in b.order || id == e;
    assert id in b.live + [e] <==> id in b.live || id == e;
  }

  lemma {:induction false} AddKeeps(b: Book, info: Info, load: Load)
    requires Inv(b, multiset{})
    ensures Inv(Added(b, info, load), multiset{}) && b.unused !in b.order && b.unused !in b.live && b.unused > 0
  {
    hide EntryOk, NoDup, Sum;
    var e, b' := b.unused, Added(b, info, load);
    Unused(b);
    forall id ensures EntryOk(b', multiset{}, id) { Entry(b, multiset{}, id); AddEntry(b, info, load, id); }
    AppendNoDup(b.live, e);
    AppendNoDup(b.order, e);
    SumFrame(b.loads, b'.loads, b.live);
    SumAdd(b'.loads, b.live, e);
  }

  function Removed(b: Book, e: Id): Book
    requires e in b.refs && e in b.loads && b.refs[e] > 0
  {
    Unrefd(b.(order := Without(b.order, e)), e)
  }

  lemma {:induction false} RemoveKeeps(b: Book, e: Id)
    requires Inv(b, multiset{}) && e in b.order
    ensures e in b.refs && e in b.loads && b.refs[e] > 0 && Inv(Removed(b, e), multiset{})
    ensures Removed(b, e).order == Without(b.order, e)
  {
    Live(b, multiset{}, e);
    TakeOut(b, e);
    UnrefKeeps(b.(order := Without(b.order, e)), multiset{e}, e);
    assert multiset{e} - multiset{e} == multiset{};
  }

  /** From the oldest on, until the rest fits. */
  ghost function Evicted(b: Book, capacity: nat): Book
    requires Inv(b, multiset{})
    decreases |b.order|
  {
    if b.usage <= capacity || b.order == [] then b
    else
      RemoveKeeps(b, b.order[0]);
      Evicted(Removed(b, b.order[0]), capacity)
  }

  ghost predicate Suffix(s: seq<Id>, t: seq<Id>) { |s| <= |t| && s == t[|t| - |s|..] }

  /** Only the oldest entries go, handles stay good, and what is left fits unless nothing
      is left in the cache. */
  lemma {:induction false} EvictedFits(b: Book, capacity: nat)
    requires Inv(b, multiset{})
    ensures var b' := Evicted(b, capacity);
            && Inv(b', multiset{}) && (b'.usage <= capacity || b'.order == [])
            && Suffix(b'.order, b.order) && b'.out == b.out && b'.unused == b.unused
            && (b'.order != b.order ==> b.usage > capacity)
            && FreedUnheld(b, b') && Kept(b, b') && IsPrefix(b.deleted, b'.deleted)
            && (b'.order != b.order ==> exists m :: LastOut(m, capacity, b'))
    decreases |b.order|
  {
    hide Inv, Removed, IsPrefix;
    PrefixSelf(b.deleted);
    if !(b.usage <= capacity || b.order == []) {
      var e := b.order[0];
      RemoveKeeps(b, e);
      var m := Removed(b, e);
      EvictedFits(m, capacity);
      RemovedFrees(b, e);
      RemovedKept(b, e);
      FreedMore(b, e, m, Evicted(m, capacity));
      PrefixTrans(b.deleted, m.deleted, Evicted(m, capacity).deleted);
      if Evicted(m, capacity).order == m.order {
        EvictedSame(m, capacity);
        assert LastOut(b, capacity, m);
      }
    }
  }

  /** The last entry to go was not yet gone when the rest did not fit. */
  ghost predicate LastOut(b: Book, capacity: nat, b': Book) {
    Inv(b, multiset{}) && b.usage > capacity && b.order != [] && b'.order == b.order[1..] && Freed(b, b.order[0], b')
  }

  ghost predicate Freed(b: Book, e: Id, b': Book) {
    e in b.refs && e in b.loads && b.refs[e] > 0 && b' == Removed(b, e)
  }

  lemma {:induction false} EvictedSame(b: Book, capacity: nat)
    requires Inv(b, multiset{}) && Evicted(b, capacity).order == b.order
    ensures Evicted(b, capacity) == b
  {
    hide Inv, Removed;
    if !(b.usage <= capacity || b.order == []) {
      RemoveKeeps(b, b.order[0]);
      var m := Removed(b, b.order[0]);
      FirstWithout(b.order);
      EvictedShorter(m, capacity);
    }
  }

  lemma {:induction false} EvictedShorter(b: Book, capacity: nat)
    requires Inv(b, multiset{})
    ensures |Evicted(b, capacity).order| <= |b.order|
    decreases |b.order|
  {
    hide Inv, Removed;
    if !(b.usage <= capacity || b.order == []) {
      RemoveKeeps(b, b.order[0]);
      FirstWithout(b.order);
      EvictedShorter(Removed(b, b.order[0]), capacity);
    }
  }

  ghost predicate IsPrefix(s: seq<Id>, t: seq<Id>) { |s| <= |t| && t[..|s|] == s }

  lemma {:induction false} PrefixSelf(s: seq<Id>)
    ensures IsPrefix(s, s)
  {
  }

  lemma {:induction false} PrefixTrans(s: seq<Id>, t: seq<Id>, u: seq<Id>)
    requires IsPrefix(s, t) && IsPrefix(t, u)
    ensures IsPrefix(s, u)
  {
    assert u[..|s|] == u[..|t|][..|s|];
  }

  /** Entries are freed only when they left the cache and no handle is on them. */
  ghost predicate FreedUnheld(b: Book, b': Book) {
    forall id :: id in b.live && id !in b'.live ==> id in b.order && id !in b'.order && b.out[id] == 0
  }

  /** What is still there is what it was. */
  ghost predicate Kept(b: Book, b': Book) {
    && (forall id :: id in b'.loads ==> id in b.loads && b'.loads[id] == b.loads[id])
    && (forall id :: id in b'.infos ==> id in b.infos && b'.infos[id] == b.infos[id])
  }

  lemma {:induction false} RemovedKept(b: Book, e: Id)
    requires e in b.refs && e in b.loads && b.refs[e] > 0
    ensures Kept(b, Removed(b, e)) && IsPrefix(b.deleted, Removed(b, e).deleted)
  {
  }

  lemma {:induction false} FreedMore(b: Book, e: Id, m: Book, b': Book)
    requires e in b.order && m.out == b.out && (forall id :: id in m.order ==> id in b.order) &&
             (forall id :: id in b'.order ==> id in m.order)
    requires e !in m.order && (e in m.live <==> b.out[e] > 0) &&
             (forall id :: id != e ==> (id in m.live <==> id in b.live))
    requires FreedUnheld(m, b')
    ensures FreedUnheld(b, b')
  {
  }

  /** An entry is freed when it leaves the cache just if no handle is out. */
  lemma {:induction false} RemovedFrees(b: Book, e: Id)
    requires Inv(b, multiset{}) && e in b.order
    ensures e in b.refs && e in b.loads && b.refs[e] > 0
    ensures var b' := Removed(b, e);
            && (e in b'.live <==> b.out[e] > 0) && (e in b'.deleted <==> b.out[e] == 0) && b'.out == b.out &&
               b'.unused == b.unused
            && (forall id :: id != e ==> (id in b'.live <==> id in b.live))
            && (forall id :: id in b'.order <==> id in b.order && id != e)
  {
    hide Without;
    Live(b, multiset{}, e);
    Entry(b, multiset{}, e);
    WithoutHas(b.live, e);
    WithoutHas(b.order, e);
  }

  // ----- the cache -----

  /** The table holds the entries of the list. */
  ghost predicate SameEntries(chains: seq<seq<Id>>, order: seq<Id>) { forall id :: Has(chains, id) <==> id in order }

  /** The cached entry for a key, if there is one. */
  ghost predicate IsFor(b: Book, info: Info, l: Link) {
    match l
    case To(e) => e in b.order && e in b.infos && b.infos[e] == info
    case Null => forall id :: id in b.order && id in b.infos ==> b.infos[id] != info
  }

  lemma {:induction false} OkParts(c: LRUCache)
    requires c.Ok()
    ensures Inv(c.View(), multiset{}) && Ring(c.next, c.prev, c.order) && c.table.Ok(c.infos) &&
            SameEntries(c.table.chains, c.order)
  {
  }

  lemma {:induction false} OkWhole(c: LRUCache)
    requires Inv(c.View(), multiset{}) && Ring(c.next, c.prev, c.order) && c.table.Ok(c.infos) &&
             SameEntries(c.table.chains, c.order)
    ensures c.Ok()
  {
  }

  lemma {:induction false} PrevIs(prev: map<Id, Id>, e: Id)
    requires e in prev
    ensures prev[0 := e][0] == e
  {
  }

  lemma {:induction false} TouchedIs(b: Book, e: Id)
    requires e in b.refs
    ensures Touched(b, e) == b.(refs := b.refs[e := b.refs[e] + 1], order := Without(b.order, e) + [e],
                                out := b.out + multiset{e})
  {
  }

  lemma {:induction false} UnrefdIs(b: Book, e: Id)
    requires e in b.refs && e in b.loads && b.refs[e] > 0
    ensures var b' := Unrefd(b, e);
            && b'.order == b.order && b'.out == b.out && b'.unused == b.unused
            && b'.infos == if b.refs[e] > 1 then b.infos else b.infos - {e}
  {
  }

  lemma {:induction false} RemovedIs(b: Book, e: Id)
    requires e in b.refs && e in b.loads && b.refs[e] > 0
    ensures Removed(b, e) == Unrefd(b.(order := Without(b.order, e)), e)
  {
  }

  lemma {:induction false} AddedIs(b: Book, info: Info, load: Load)
    ensures var e := b.unused;
            Added(b, info, load) ==
            b.(infos := b.infos[e := info], loads := b.loads[e := load], refs := b.refs[e := 2],
               usage := b.usage + load.charge,
               order := b.order + [e], out := b.out + multiset{e}, live := b.live + [e], unused := e + 1)
  {
  }

  lemma {:induction false} AddedFields(b: Book, info: Info, load: Load)
    ensures var e, b' := b.unused, Added(b, info, load);
            && b'.infos == b.infos[e := info] && b'.loads == b.loads[e := load] && b'.refs == b.refs[e := 2] &&
               b'.usage == b.usage + load.charge
            && b'.order == b.order + [e] && b'.out == b.out + multiset{e} && b'.live == b.live + [e] &&
               b'.deleted == b.deleted && b'.unused == e + 1
  {
  }

  lemma {:induction false} SameBook(b: Book, c: Book)
    requires b.infos == c.infos && b.loads == c.loads && b.refs == c.refs && b.usage == c.usage && b.order == c.order
    requires b.out == c.out && b.live == c.live && b.deleted == c.deleted && b.unused == c.unused
    ensures b == c
  {
  }

  lemma {:induction false} ReplacedIs(b: Book, l: Link)
    requires l.To? ==> l.id in b.refs && l.id in b.loads && b.refs[l.id] > 0
    ensures Replaced(b, l) == if l == Null then b else Removed(b, l.id)
  {
  }

  // What the table and the list say of each other.

  lemma {:induction false} FindsIsFor(b: Book, chains: seq<seq<Id>>, info: Info, l: Link)
    requires Finds(b.infos, chains, info, l) && SameEntries(chains, b.order)
    ensures IsFor(b, info, l) && (l != Null ==> l.id in b.order)
  {
    hide Has;
  }

  lemma {:induction false} NotHas(chains: seq<seq<Id>>, order: seq<Id>, e: Id)
    requires SameEntries(chains, order) && e !in order
    ensures !Has(chains, e)
  {
  }

  lemma {:induction false} SameMoved(chains: seq<seq<Id>>, order: seq<Id>, e: Id)
    requires SameEntries(chains, order) && NoDup(order) && e in order
    ensures SameEntries(chains, Without(order, e) + [e])
  {
    hide Has, Without;
    WithoutHas(order, e);
    forall id ensures Has(chains, id) <==> id in Without(order, e) + [e] {}
  }

  lemma {:induction false} SameLess(chains: seq<seq<Id>>, chains': seq<seq<Id>>, order: seq<Id>, e: Id)
    requires SameEntries(chains, order) && After(chains, chains', To(e), Null) && NoDup(order) && e in order
    ensures SameEntries(chains', Without(order, e)) && e !in Without(order, e)
  {
    hide Has, Without;
    WithoutHas(order, e);
  }

  lemma {:induction false} SameStill(chains: seq<seq<Id>>, chains': seq<seq<Id>>, order: seq<Id>)
    requires SameEntries(chains, order) && After(chains, chains', Null, Null)
    ensures SameEntries(chains', order)
  {
    hide Has;
  }

  lemma {:induction false} SamePlus(chains: seq<seq<Id>>, chains': seq<seq<Id>>, order: seq<Id>, e: Id, replaced: Link)
    requires SameEntries(chains, order) && After(chains, chains', replaced, To(e)) && NoDup(order) && e !in order
    requires replaced != Null ==> replaced.id in order
    ensures if replaced == Null then SameEntries(chains', order + [e])
            else SameEntries(chains', Without(order + [e], replaced.id)) && replaced.id in order + [e]
  {
    hide Has, Without;
    AppendNoDup(order, e);
    if replaced != Null {
      assert replaced.id in order + [e];
      WithoutHas(order + [e], replaced.id);
    }
  }

  lemma {:induction false} ReplacedIsFor(b: Book, info: Info, chains: seq<seq<Id>>, e: Id, replaced: Link)
    requires Finds(b.infos[e := info], chains, info, replaced) && SameEntries(chains, b.order) && e !in b.order
    ensures IsFor(b, info, replaced) && (replaced != Null ==> replaced.id in b.order)
  {
    hide Has;
  }

  /** The entry is the only one in the table for its key. */
  ghost predicate Sole(infos: Infos, chains: seq<seq<Id>>, e: Id) {
    e in infos && Has(chains, e) && forall id :: Has(chains, id) && id in infos && infos[id] == infos[e] ==> id == e
  }

  lemma {:induction false} OnlyOne(t: HandleTable, infos: Infos, e: Id)
    requires t.Ok(infos) && e in infos && Has(t.chains, e)
    ensures Sole(infos, t.chains, e)
  {
    hide Has;
    OkUnfold(t, infos);
    forall id | Has(t.chains, id) && id in infos && infos[id] == infos[e] ensures id == e {
      OnePerKey(infos, t.heads, t.next, t.chains, e, id);
    }
  }

  lemma {:induction false} FoundIsSole(infos: Infos, chains: seq<seq<Id>>, e: Id, found: Link)
    requires Sole(infos, chains, e) && Finds(infos, chains, infos[e], found)
    ensures found == To(e)
  {
    hide Has;
  }

  lemma {:induction false} HasEntry(chains: seq<seq<Id>>, order: seq<Id>, e: Id)
    requires SameEntries(chains, order) && e in order
    ensures Has(chains, e)
  {
  }

  /** The table does not look at an entry it does not hold. */
  lemma {:induction false} TableFrame(t: HandleTable, infos: Infos, infos': Infos, e: Id)
    requires t.Ok(infos) && !Has(t.chains, e)
    requires forall id :: id != e && id in infos ==> id in infos' && infos'[id] == infos[id]
    ensures t.Ok(infos')
  {
    hide Has;
    OkUnfold(t, infos);
    InfosGrow(infos, infos', t.heads, t.next, t.chains);
    OkFold(t, infos');
  }

  lemma {:induction false} TableMore(t: HandleTable, infos: Infos, e: Id, info: Info)
    requires t.Ok(infos) && !Has(t.chains, e)
    ensures t.Ok(infos[e := info])
  {
    hide HandleTable.Ok, Has;
    TableFrame(t, infos, infos[e := info], e);
  }

  /** An entry freed by its last handle was not in the table. */
  lemma {:induction false} ReleasedTable(t: HandleTable, b: Book, e: Id)
    requires Inv(b, multiset{e}) && t.Ok(b.infos) && SameEntries(t.chains, b.order) && e in b.refs && e in b.loads &&
             b.refs[e] > 0
    ensures t.Ok(Unrefd(b, e).infos)
  {
    hide SameEntries;
    UnrefdIs(b, e);
    if b.refs[e] == 1 {
      Entry(b, multiset{e}, e);
      NotHas(t.chains, b.order, e);
      TableFrame(t, b.infos, b.infos - {e}, e);
    }
  }

  lemma {:induction false} FirstWithout(order: seq<Id>)
    requires order != []
    ensures Without(order, order[0]) == order[1..]
  {
  }

  // Making room.

  lemma {:induction false} EvictedStep(b: Book, capacity: nat)
    requires Inv(b, multiset{}) && b.usage > capacity && b.order != []
    ensures b.order[0] in b.refs && b.order[0] in b.loads && b.refs[b.order[0]] > 0
    ensures var m := Removed(b, b.order[0]);
            Inv(m, multiset{}) && |m.order| < |b.order| && Evicted(m, capacity) == Evicted(b, capacity)
  {
    hide Inv, Removed;
    RemoveKeeps(b, b.order[0]);
  }

  lemma {:induction false} EvictedDone(b: Book, capacity: nat)
    requires Inv(b, multiset{}) && (b.usage <= capacity || b.order == [])
    ensures Evicted(b, capacity) == b
  {
  }

  lemma {:induction false} NothingLeft(b: Book)
    requires Inv(b, multiset{}) && b.order == [] && b.out == multiset{}
    ensures b.live == [] && b.usage == 0 && NoDup(b.deleted) && forall id: Id :: id in b.deleted <==> 0 < id < b.unused
  {
    if b.live != [] {
      Entry(b, multiset{}, b.live[0]);
    }
    forall id: Id ensures id in b.deleted <==> 0 < id < b.unused { Entry(b, multiset{}, id); }
  }

  /** The old entry for the key, if there was one, goes. */
  function Replaced(b: Book, l: Link): Book {
    if l.To? && l.id in b.refs && l.id in b.loads && b.refs[l.id] > 0 then Removed(b, l.id) else b
  }

  /** The new entry in, the old one for its key out, and then the oldest ones. */
  ghost predicate Inserted(b: Book, info: Info, load: Load, replaced: Link, capacity: nat, b': Book) {
    var m := Replaced(Added(b, info, load), replaced);
    Inv(m, multiset{}) && b' == Evicted(m, capacity)
  }

  lemma {:induction false} InsertedFold(b: Book, info: Info, load: Load, replaced: Link, m: Book, capacity: nat,
                                        b': Book)
    requires m == Replaced(Added(b, info, load), replaced) && Inv(m, multiset{}) && b' == Evicted(m, capacity)
    ensures Inserted(b, info, load, replaced, capacity, b')
  {
  }

  /** The room is made or nothing is cached; the handle returned is good; every handle
      that was out before still leads to its value. */
  ghost predicate InsertGood(b: Book, info: Info, load: Load, capacity: nat, b': Book) {
    && (b'.usage <= capacity || b'.order == [])
    && b'.out == b.out + multiset{b.unused} && b.unused in b'.loads && b'.loads[b.unused] == load
    && b.unused in b'.infos && b'.infos[b.unused] == info
    && forall id :: b'.out[id] > 0 && id != b.unused ==> id in b'.loads && id in b.loads && b'.loads[id] == b.loads[id]
  }

  lemma {:induction false} ReplacedKept(b: Book, l: Link)
    ensures var m := Replaced(b, l); m.out == b.out && m.unused == b.unused && Kept(b, m)
  {
    if l.To? && l.id in b.refs && l.id in b.loads && b.refs[l.id] > 0 { RemovedKept(b, l.id); }
  }

  lemma {:induction false} KeptTwice(a: Book, b: Book, c: Book)
    requires Kept(a, b) && Kept(b, c)
    ensures Kept(a, c)
  {
  }

  lemma {:induction false} InsertedMeans(b: Book, info: Info, load: Load, replaced: Link, capacity: nat, b': Book)
    requires Inserted(b, info, load, replaced, capacity, b')
    ensures InsertGood(b, info, load, capacity, b') && Inv(b', multiset{})
  {
    var a := Added(b, info, load);
    var m := Replaced(a, replaced);
    hide Inv, Added, Replaced, Evicted, Kept, InsertGood, FreedUnheld, Suffix;
    AddedIs(b, info, load);
    ReplacedKept(a, replaced);
    EvictedFits(m, capacity);
    KeptTwice(a, m, b');
    AddedKept(b, info, load, capacity, b');
  }

  lemma {:induction false} AddedKept(b: Book, info: Info, load: Load, capacity: nat, b': Book)
    requires Inv(b', multiset{}) && Kept(Added(b, info, load), b') && b'.out == b.out + multiset{b.unused}
    requires b'.usage <= capacity || b'.order == []
    ensures InsertGood(b, info, load, capacity, b')
  {
    var a := Added(b, info, load);
    hide Inv;
    Live(b', multiset{}, b.unused);
    forall id | b'.out[id] > 0 && id != b.unused
      ensures id in b'.loads && id in b.loads && b'.loads[id] == b.loads[id]
    {
      Live(b', multiset{}, id);
    }
  }

  class LRUCache {
    const table: HandleTable
    const capacity: nat
    var infos: Infos
    var loads: map<Id, Load>
    var refs: map<Id, nat>
    var next: map<Id, Id>
    var prev: map<Id, Id>
    var usage: int
    var unused: Id
    ghost var order: seq<Id>
    ghost var out: multiset<Id>
    ghost var live: seq<Id>
    ghost var deleted: seq<Id>

    ghost function View(): (b: Book)
      reads this
      ensures b.infos == infos && b.loads == loads && b.refs == refs && b.usage == usage && b.order == order
      ensures b.out == out && b.live == live && b.deleted == deleted && b.unused == unused
    {
      Book(infos, loads, refs, usage, order, out, live, deleted, unused)
    }

    ghost predicate Ok()
      reads this, table
    {
      Inv(View(), multiset{}) && Ring(next, prev, order) && table.Ok(infos) && SameEntries(table.chains, order)
    }

    constructor (capacity: nat)
      ensures Ok() && fresh(table) && this.capacity == capacity
      ensures View() == Empty()
    {
      table := new HandleTable();
      this.capacity := capacity;
      infos, loads, refs, usage, unused := map[], map[], map[], 0, 1;
      next, prev := map[0 := 0], map[0 := 0];
      order, out, live, deleted := [], multiset{}, [], [];
    }

    method LruRemove(e: Id)
      requires Ring(next, prev, order) && e in order
      modifies this`next, this`prev, this`order
      ensures Ring(next, prev, order) && order == Without(old(order), e)
    {
      hide *;
      ghost var i :| 0 <= i < |order| && order[i] == e;
      RingRemove(next, prev, order, i);
      Distinct(next, prev, order);
      WithoutIs(order, i);
      var n, p := next[e], prev[e];
      prev := prev[n := p];
      next := next[p := n];
      order := Without(order, e);
    }

    method LruAppend(e: Id)
      requires Ring(next, prev, order) && e !in order && e != 0
      modifies this`next, this`prev, this`order
      ensures Ring(next, prev, order) && order == old(order) + [e]
    {
      hide *;
      RingAppend(next, prev, order, e);
      next, prev := next[e := 0], prev[e := prev[0]];
      PrevIs(prev, e);
      next, prev := next[prev[e] := e], prev[0 := e];
      order := order + [e];
    }

    method Unref(e: Id)
      requires e in refs && e in loads && e in infos && refs[e] > 0
      modifies this`infos, this`loads, this`refs, this`usage, this`live, this`deleted
      ensures View() == Unrefd(old(View()), e)
    {
      if refs[e] > 1 {
        refs := refs[e := refs[e] - 1];
      } else {
        usage := usage - loads[e].charge;
        refs, loads, infos := refs - {e}, loads - {e}, infos - {e};
        live, deleted := Without(live, e), deleted + [e];
      }
    }

    method Lookup(info: Info) returns (l: Link)
      requires Ok()
      modifies this
      ensures Ok() && IsFor(old(View()), info, l)
      ensures match l
              case To(e) => e in old(refs) && View() == Touched(old(View()), e)
              case Null => View() == old(View())
    {
      hide *;
      OkParts(this);
      l := table.Lookup(infos, info);
      FindsIsFor(View(), table.chains, info, l);
      if l != Null {
        var e := l.id;
        ghost var was := View();
        TouchKeeps(was, e);
        TouchedIs(was, e);
        Live(was, multiset{}, e);
        refs := refs[e := refs[e] + 1];
        Distinct(next, prev, order);
        WithoutHas(order, e);
        LruRemove(e);
        LruAppend(e);
        out := out + multiset{e};
        SameMoved(table.chains, was.order, e);
        OkWhole(this);
      }
    }

    /** Gives a handle back. */
    method Release(e: Id)
      requires Ok() && out[e] > 0
      modifies this
      ensures Ok() && e in old(refs) && e in old(loads) && old(refs)[e] > 0
      ensures View() == Unrefd(old(View()).(out := old(out) - multiset{e}), e)
    {
      hide *;
      OkParts(this);
      Live(View(), multiset{}, e);
      GiveBack(View(), e);
      out := out - multiset{e};
      ghost var was := View();
      UnrefKeeps(was, multiset{e}, e);
      Unref(e);
      UnrefdIs(was, e);
      assert multiset{e} - multiset{e} == multiset{};
      ReleasedTable(table, was, e);
      OkWhole(this);
    }

    /** Drops the entry for a key from the cache. */
    method Erase(info: Info) returns (ghost l: Link)
      requires Ok()
      modifies this, table
      ensures Ok() && IsFor(old(View()), info, l)
      ensures match l
              case To(e) => e in old(refs) && e in old(loads) && old(refs)[e] > 0 && View() == Removed(old(View()), e)
              case Null => View() == old(View())
    {
      hide *;
      OkParts(this);
      ghost var was, chains := View(), table.chains;
      var found := table.Remove(infos, info);
      l := found;
      FindsIsFor(was, chains, info, l);
      if found != Null {
        Distinct(next, prev, order);
        SameLess(chains, table.chains, order, found.id);
        Discard(found.id);
      } else {
        SameStill(chains, table.chains, order);
        OkWhole(this);
      }
    }

    /** An entry that has left the table leaves the list and is dropped. */
    method Discard(e: Id)
      requires Inv(View(), multiset{}) && Ring(next, prev, order) && table.Ok(infos) && e in order
      requires SameEntries(table.chains, Without(order, e))
      modifies this
      ensures Ok() && e in old(refs) && e in old(loads) && old(refs)[e] > 0 && View() == Removed(old(View()), e)
    {
      hide *;
      ghost var was := View();
      RemoveKeeps(was, e);
      Live(was, multiset{}, e);
      Distinct(next, prev, order);
      WithoutHas(order, e);
      LruRemove(e);
      NotHas(table.chains, order, e);
      ghost var mid := View();
      RemovedIs(was, e);
      Unref(e);
      UnrefdIs(mid, e);
      TableFrame(table, mid.infos, infos, e);
      OkWhole(this);
    }

    /** The oldest entry makes way. */
    method EvictOne()
      requires Ok() && order != []
      modifies this, table
      ensures Ok() && Inv(old(View()), multiset{}) && old(order)[0] in old(refs) && old(order)[0] in old(loads) &&
              old(refs)[old(order)[0]] > 0
      ensures View() == Removed(old(View()), old(order)[0])
    {
      hide *;
      OkParts(this);
      ghost var was, chains := View(), table.chains;
      RingFirst(next, prev, order);
      var e := next[0];
      Live(was, multiset{}, e);
      HasEntry(chains, order, e);
      OnlyOne(table, infos, e);
      Distinct(next, prev, order);
      RemoveKeeps(was, e);
      RemovedIs(was, e);
      LruRemove(e);
      var found := table.Remove(infos, infos[e]);
      FoundIsSole(was.infos, chains, e, found);
      SameLess(chains, table.chains, was.order, e);
      NotHas(table.chains, order, e);
      ghost var mid := View();
      Unref(e);
      UnrefdIs(mid, e);
      TableFrame(table, mid.infos, infos, e);
      OkWhole(this);
    }

    method Insert(info: Info, value: int, charge: nat) returns (e: Id, ghost replaced: Link)
      requires Ok()
      modifies this, table
      ensures Ok() && e == old(unused) && IsFor(old(View()), info, replaced)
      ensures Inserted(old(View()), info, Load(value, charge), replaced, capacity, View())
      ensures InsertGood(old(View()), info, Load(value, charge), capacity, View())
    {
      hide *;
      ghost var was := View();
      e := AddEntry(info, value, charge);
      replaced := ReplaceOld(was, info, Load(value, charge), e);
      ghost var mid := View();
      OkParts(this);
      EvictLoop();
      InsertedFold(was, info, Load(value, charge), replaced, mid, capacity, View());
      InsertedMeans(was, info, Load(value, charge), replaced, capacity, View());
    }

    /** The first part of Insert: the entry is made and is the newest of the list. */
    method AddEntry(info: Info, value: int, charge: nat) returns (e: Id)
      requires Ok()
      modifies this
      ensures Inv(old(View()), multiset{}) && Inv(View(), multiset{}) &&
              View() == Added(old(View()), info, Load(value, charge)) && Ring(next, prev, order)
      ensures e == old(unused) && table.Ok(infos) && e in infos && infos[e] == info && !Has(table.chains, e)
      ensures SameEntries(table.chains, old(order)) && NoDup(old(order)) && e !in old(order)
    {
      hide *;
      OkParts(this);
      ghost var was := View();
      AddKeeps(was, info, Load(value, charge));
      Distinct(next, prev, order);
      e := Allocate(info, value, charge);
      LruAppend(e);
      AddedFields(was, info, Load(value, charge));
      SameBook(View(), Added(was, info, Load(value, charge)));
      NotHas(table.chains, was.order, e);
      TableMore(table, was.infos, e, info);
    }

    /** A new entry, with one reference for the cache and one for the handle. */
    method Allocate(info: Info, value: int, charge: nat) returns (e: Id)
      modifies this`infos, this`loads, this`refs, this`usage, this`unused, this`out, this`live
      ensures e == old(unused) && unused == e + 1 && infos == old(infos)[e := info] &&
              loads == old(loads)[e := Load(value, charge)]
      ensures refs == old(refs)[e := 2] && usage == old(usage) + charge && out == old(out) + multiset{e} &&
              live == old(live) + [e]
    {
      e := unused;
      unused := unused + 1;
      infos, loads, refs := infos[e := info], loads[e := Load(value, charge)], refs[e := 2];
      usage := usage + charge;
      out, live := out + multiset{e}, live + [e];
    }

    /** The second part: it takes the place of the entry its key had. */
    method ReplaceOld(ghost was: Book, info: Info, load: Load, e: Id) returns (ghost replaced: Link)
      requires Inv(View(), multiset{}) && View() == Added(was, info, load) && Ring(next, prev, order) && e == was.unused
      requires table.Ok(infos) && e in infos && infos[e] == info && !Has(table.chains, e)
      requires SameEntries(table.chains, was.order) && NoDup(was.order) && e !in was.order
      modifies this, table
      ensures Ok() && IsFor(was, info, replaced) && View() == Replaced(Added(was, info, load), replaced)
    {
      hide *;
      ghost var chains, added := table.chains, View();
      AddedIs(was, info, load);
      var found := table.Insert(infos, e);
      replaced := found;
      ReplacedIsFor(was, info, chains, e, replaced);
      SamePlus(chains, table.chains, was.order, e, replaced);
      if found != Null {
        Discard(found.id);
      } else {
        OkWhole(this);
      }
      ReplacedIs(added, replaced);
    }

    method EvictLoop()
      requires Ok()
      modifies this, table
      ensures Ok() && Inv(old(View()), multiset{}) && View() == Evicted(old(View()), capacity)
    {
      hide *;
      OkParts(this);
      ghost var was := View();
      RingFirst(next, prev, order);
      while usage > capacity && next[0] != 0
        invariant Ok() && Inv(was, multiset{}) && Inv(View(), multiset{})
        invariant Evicted(View(), capacity) == Evicted(was, capacity)
        invariant 0 in next && (next[0] == 0 <==> order == [])
        decreases |order|
      {
        ghost var b := View();
        EvictOne();
        OkParts(this);
        EvictedStep(b, capacity);
        RingFirst(next, prev, order);
      }
      EvictedDone(View(), capacity);
    }

    /** Tears the cache down once every handle has been given back. */
    method Destroy()
      requires Ok() && out == multiset{}
      modifies this
      ensures live == [] && usage == 0 && unused == old(unused) && NoDup(deleted)
      ensures forall id: Id :: id in deleted <==> 0 < id < unused
    {
      hide *;
      OkParts(this);
      RingFirst(next, prev, order);
      ghost var all := order;
      ghost var k: nat := 0;
      var e := next[0];
      AtIs(all, 1);
      Distinct(next, prev, all);
      while e != 0
        invariant k <= |all| && e == At(all, k + 1) && order == all[k..] && Ring(next, prev, all) && out == multiset{}
        invariant (e == 0 <==> k == |all|) && (k < |all| ==> e == all[k])
        invariant Inv(View(), multiset{}) && unused == old(unused)
        decreases |all| - k
      {
        ghost var b := View();
        RingAt(next, prev, all, k + 1);
        LinkedIs(next, prev, At(all, k + 1), At(all, k + 2));
        var n := next[e];
        Live(b, multiset{}, e);
        RemoveKeeps(b, e);
        RemovedIs(b, e);
        FirstWithout(order);
        order := order[1..];
        Unref(e);
        UnrefdIs(b.(order := b.order[1..]), e);
        AtIs(all, k + 2);
        e, k := n, k + 1;
      }
      NothingLeft(View());
    }
  }

  // ----- whole runs -----

  datatype Op = InsertOp(info: Info, load: Load) | LookupOp(info: Info) | ReleaseOp(id: Id) | EraseOp(info: Info)

  ghost predicate Did(b: Book, op: Op, capacity: nat, b': Book) {
    match op
    case InsertOp(info, load) => exists l :: IsFor(b, info, l) && Inserted(b, info, load, l, capacity, b')
    case LookupOp(info) => exists l :: IsFor(b, info, l) && b' == Looked(b, l)
    case ReleaseOp(id) => b' == Released(b, id)
    case EraseOp(info) => exists l :: IsFor(b, info, l) && b' == Replaced(b, l)
  }

  function Looked(b: Book, l: Link): Book {
    if l.To? && l.id in b.refs then Touched(b, l.id) else b
  }

  /** A caller can give back only a handle it holds. */
  function Released(b: Book, e: Id): Book {
    if b.out[e] > 0 && e in b.refs && e in b.loads && b.refs[e] > 0 then Unrefd(b.(out := b.out - multiset{e}), e)
      else b
  }

  /** From one moment to a later one: the deleter's record only grows, and an entry made
      before and not yet freed carries what it carried. */
  ghost predicate Later(b: Book, b': Book) {
    && IsPrefix(b.deleted, b'.deleted) && b.unused <= b'.unused
    && forall id :: id in b'.loads && id < b.unused ==> id in b.loads && b'.loads[id] == b.loads[id]
  }

  lemma {:induction false} LaterSelf(b: Book)
    ensures Later(b, b)
  {
    PrefixSelf(b.deleted);
  }

  lemma {:induction false} LaterTrans(a: Book, b: Book, c: Book)
    requires Later(a, b) && Later(b, c)
    ensures Later(a, c)
  {
    PrefixTrans(a.deleted, b.deleted, c.deleted);
  }

  lemma {:induction false} KeptIsLater(b: Book, b': Book)
    requires Kept(b, b') && IsPrefix(b.deleted, b'.deleted) && b.unused <= b'.unused
    ensures Later(b, b')
  {
  }

  lemma {:induction false} ReplacedLater(b: Book, l: Link)
    ensures Later(b, Replaced(b, l))
  {
    hide Removed, IsPrefix;
    PrefixSelf(b.deleted);
    ReplacedKept(b, l);
    if l.To? && l.id in b.refs && l.id in b.loads && b.refs[l.id] > 0 { RemovedKept(b, l.id); }
  }

  lemma {:induction false} InsertedLater(b: Book, info: Info, load: Load, l: Link, capacity: nat, b': Book)
    requires Inserted(b, info, load, l, capacity, b')
    ensures Later(b, b')
  {
    var a := Added(b, info, load);
    assert Later(b, a) by { PrefixSelf(b.deleted); }
    var m := Replaced(a, l);
    hide Added, Replaced, Evicted, Later, Inv, FreedUnheld, Suffix, Kept, LastOut;
    ReplacedLater(a, l);
    EvictedFits(m, capacity);
    KeptIsLater(m, b');
    LaterTrans(b, a, m);
    LaterTrans(b, m, b');
  }

  lemma {:induction false} ReleasedKeeps(b: Book, e: Id)
    requires Inv(b, multiset{})
    ensures Inv(Released(b, e), multiset{}) && Later(b, Released(b, e))
  {
    hide Inv, Without;
    PrefixSelf(b.deleted);
    if b.out[e] > 0 {
      Live(b, multiset{}, e);
      GiveBack(b, e);
      UnrefKeeps(b.(out := b.out - multiset{e}), multiset{e}, e);
      assert multiset{e} - multiset{e} == multiset{};
    }
  }

  lemma {:induction false} LookedKeeps(b: Book, info: Info, l: Link)
    requires Inv(b, multiset{}) && IsFor(b, info, l)
    ensures Inv(Looked(b, l), multiset{}) && Later(b, Looked(b, l))
  {
    hide Inv, Without;
    PrefixSelf(b.deleted);
    if l.To? { TouchKeeps(b, l.id); }
  }

  lemma {:induction false} ErasedKeeps(b: Book, info: Info, l: Link)
    requires Inv(b, multiset{}) && IsFor(b, info, l)
    ensures Inv(Replaced(b, l), multiset{})
  {
    hide Inv, Removed;
    if l.To? { RemoveKeeps(b, l.id); }
  }

  lemma {:induction false} DidKeeps(b: Book, op: Op, capacity: nat, b': Book)
    requires Inv(b, multiset{}) && Did(b, op, capacity, b')
    ensures Inv(b', multiset{}) && Later(b, b')
  {
    hide Inv, Later, Inserted, IsFor, Looked, Replaced, Released;
    match op
    case InsertOp(info, load) =>
      var l :| IsFor(b, info, l) && Inserted(b, info, load, l, capacity, b');
      InsertedMeans(b, info, load, l, capacity, b');
      InsertedLater(b, info, load, l, capacity, b');
    case LookupOp(info) =>
      var l :| IsFor(b, info, l) && b' == Looked(b, l);
      LookedKeeps(b, info, l);
    case ReleaseOp(id) =>
      ReleasedKeeps(b, id);
    case EraseOp(info) =>
      var l :| IsFor(b, info, l) && b' == Replaced(b, l);
      ErasedKeeps(b, info, l);
      ReplacedLater(b, l);
  }

  function Empty(): Book { Book(map[], map[], map[], 0, [], multiset{}, [], [], 1) }

  ghost predicate IsRun(run: seq<Book>, ops: seq<Op>, capacity: nat) {
    && |run| == |ops| + 1 && run[0] == Empty()
    && forall i :: 0 <= i < |ops| ==> Did(run[i], ops[i], capacity, run[i + 1])
  }

  lemma {:induction false} RunInv(run: seq<Book>, ops: seq<Op>, capacity: nat, i: nat)
    requires IsRun(run, ops, capacity) && i < |run|
    ensures Inv(run[i], multiset{})
  {
    hide Did, Inv;
    if i == 0 {
      assert Inv(Empty(), multiset{}) by { EmptyInv(); }
    } else {
      RunInv(run, ops, capacity, i - 1);
      assert Did(run[i - 1], ops[i - 1], capacity, run[i - 1 + 1]);
      DidKeeps(run[i - 1], ops[i - 1], capacity, run[i]);
    }
  }

  lemma {:induction false} EmptyInv()
    ensures Inv(Empty(), multiset{})
  {
  }

  lemma {:induction false} RunLater(run: seq<Book>, ops: seq<Op>, capacity: nat, i: nat, j: nat)
    requires IsRun(run, ops, capacity) && i <= j < |run|
    ensures Later(run[i], run[j])
  {
    hide Did, Inv, Later;
    if i == j {
      LaterSelf(run[i]);
    } else {
      RunLater(run, ops, capacity, i, j - 1);
      RunInv(run, ops, capacity, j - 1);
      assert Did(run[j - 1], ops[j - 1], capacity, run[j - 1 + 1]);
      DidKeeps(run[j - 1], ops[j - 1], capacity, run[j]);
      LaterTrans(run[i], run[j - 1], run[j]);
    }
  }

  /** In every run of inserts, lookups, releases and erasures: a handle that is out leads
      to the value its entry was made with; an entry whose deleter has run is not cached,
      has no handle out, and its deleter does not run again. */
  lemma {:induction false} HandlesStayGood(run: seq<Book>, ops: seq<Op>, capacity: nat, i: nat, j: nat, id: Id)
    requires IsRun(run, ops, capacity) && i <= j < |run| && id < run[i].unused
    ensures run[j].out[id] > 0 || id in run[j].order ==>
              id in run[i].loads && id in run[j].loads && run[j].loads[id] == run[i].loads[id]
    ensures id in run[i].deleted ==>
              id in run[j].deleted && id !in run[j].order && run[j].out[id] == 0 && NoDup(run[j].deleted)
  {
    hide Inv, IsRun;
    RunInv(run, ops, capacity, j);
    RunLater(run, ops, capacity, i, j);
    Entry(run[j], multiset{}, id);
    DeletedOnce(run[j]);
    if id in run[i].deleted {
      var k :| 0 <= k < |run[i].deleted| && run[i].deleted[k] == id;
      assert run[j].deleted[..|run[i].deleted|][k] == id;
    }
  }

  lemma {:induction false} DeletedOnce(b: Book)
    requires Inv(b, multiset{})
    ensures NoDup(b.deleted)
  {
  }

  lemma {:induction false} WithoutMultiset(s: seq<Id>, e: Id)
    requires e in s
    ensures multiset(Without(s, e)) == multiset(s) - multiset{e}
  {
    assert s == [s[0]] + s[1..];
    if s[0] != e {
      WithoutMultiset(s[1..], e);
    }
  }

  /** Carries out one call for a caller who holds the handles `held`, and who gives back
      only those. */
  method Apply(c: LRUCache, held: seq<Id>, op: Op) returns (held': seq<Id>)
    requires c.Ok() && c.out == multiset(held)
    modifies c, c.table
    ensures c.Ok() && c.out == multiset(held') && Did(old(c.View()), op, c.capacity, c.View())
  {
    hide *;
    ghost var was := c.View();
    match op
    case InsertOp(info, load) =>
      var e, l := c.Insert(info, load.value, load.charge);
      held' := held + [e];
      DidInsert(was, info, load, l, c.capacity, c.View());
    case LookupOp(info) =>
      var l := c.Lookup(info);
      held' := if l == Null then held else held + [l.id];
      DidLookup(was, info, l, c.capacity, c.View());
    case ReleaseOp(id) =>
      held' := held;
      if id in held {
        c.Release(id);
        held' := Without(held, id);
        WithoutMultiset(held, id);
        UnrefdIs(was.(out := was.out - multiset{id}), id);
      }
      DidRelease(was, id, c.capacity, c.View());
    case EraseOp(info) =>
      ghost var l := c.Erase(info);
      held' := held;
      DidErase(was, info, l, c.capacity, c.View());
  }

  lemma {:induction false} DidInsert(b: Book, info: Info, load: Load, l: Link, capacity: nat, b': Book)
    requires IsFor(b, info, l) && Inserted(b, info, load, l, capacity, b') && InsertGood(b, info, load, capacity, b')
    ensures Did(b, InsertOp(info, load), capacity, b') && b'.out == b.out + multiset{b.unused}
  {
  }

  lemma {:induction false} DidLookup(b: Book, info: Info, l: Link, capacity: nat, b': Book)
    requires IsFor(b, info, l) && (l == Null ==> b' == b) && (l != Null ==> l.id in b.refs && b' == Touched(b, l.id))
    ensures Did(b, LookupOp(info), capacity, b') && b'.out == if l == Null then b.out else b.out + multiset{l.id}
  {
    assert b' == Looked(b, l);
  }

  lemma {:induction false} DidRelease(b: Book, id: Id, capacity: nat, b': Book)
    requires b.out[id] == 0 ==> b' == b
    requires b.out[id] > 0 ==>
               id in b.refs && id in b.loads && b.refs[id] > 0 && b' == Unrefd(b.(out := b.out - multiset{id}), id)
    ensures Did(b, ReleaseOp(id), capacity, b')
  {
  }

  lemma {:induction false} DidErase(b: Book, info: Info, l: Link, capacity: nat, b': Book)
    requires IsFor(b, info, l) && (l == Null ==> b' == b)
    requires l != Null ==> l.id in b.refs && l.id in b.loads && b.refs[l.id] > 0 && b' == Removed(b, l.id)
    ensures Did(b, EraseOp(info), capacity, b') && b'.out == b.out
  {
    assert b' == Replaced(b, l);
    ReplacedKept(b, l);
  }

  lemma {:induction false} RunMore(run: seq<Book>, ops: seq<Op>, capacity: nat, op: Op, b: Book)
    requires IsRun(run, ops, capacity) && Did(run[|run| - 1], op, capacity, b)
    ensures IsRun(run + [b], ops + [op], capacity)
  {
    hide Did;
    var run', ops' := run + [b], ops + [op];
    forall i | 0 <= i < |ops'| ensures Did(run'[i], ops'[i], capacity, run'[i + 1]) {
      if i < |ops| { assert Did(run[i], ops[i], capacity, run[i + 1]); }
    }
  }

  method ReleaseAll(c: LRUCache, handles: seq<Id>)
    requires c.Ok() && c.out == multiset(handles)
    modifies c
    ensures c.Ok() && c.out == multiset{} && c.unused == old(c.unused)
  {
    hide *;
    var held := handles;
    while held != []
      invariant c.Ok() && c.out == multiset(held) && c.unused == old(c.unused)
      decreases |held|
    {
      var id := held[0];
      assert held == [id] + held[1..];
      ghost var was := c.View();
      c.Release(id);
      UnrefdIs(was.(out := was.out - multiset{id}), id);
      held := held[1..];
    }
  }

  /** Any calls at all on a new cache, and then its end: every entry made is deleted, and
      once, however the calls went. */
  method ApplyAll(capacity: nat, ops: seq<Op>) returns (made: nat, ghost run: seq<Book>, ghost deleted: seq<Id>)
    ensures IsRun(run, ops, capacity) && made == run[|ops|].unused - 1
    ensures NoDup(deleted) && forall id: Id :: id in deleted <==> 1 <= id <= made
  {
    hide *;
    var c := new LRUCache(capacity);
    var held: seq<Id> := [];
    run := [c.View()];
    RunStart(c.View(), capacity);
    var i := 0;
    while i < |ops|
      invariant i <= |ops| && |run| == i + 1 && IsRun(run, ops[..i], capacity) && run[i] == c.View()
      invariant c.Ok() && fresh(c) && fresh(c.table) && c.out == multiset(held) && c.capacity == capacity
    {
      held := Apply(c, held, ops[i]);
      RunMore(run, ops[..i], capacity, ops[i], c.View());
      assert ops[..i + 1] == ops[..i] + [ops[i]];
      run := run + [c.View()];
      i := i + 1;
    }
    assert ops[..i] == ops;
    ReleaseAll(c, held);
    OkParts(c);
    UnusedPositive(c.View());
    c.Destroy();
    made := c.unused - 1;
    deleted := c.deleted;
  }

  lemma {:induction false} UnusedPositive(b: Book)
    requires Inv(b, multiset{})
    ensures b.unused > 0
  {
  }

  lemma {:induction false} RunStart(b: Book, capacity: nat)
    requires b == Empty()
    ensures IsRun([b], [], capacity) && b.out == multiset{}
  {
  }
}
