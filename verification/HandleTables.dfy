/** The hash table of the block cache (util/cache.cc, HandleTable): chains of entries
    linked through the entries themselves. Entries are addressed by number, and each of
    their fields is a map from numbers. */
module HandleTables {
  import opened Arithmetic
  import opened Rings

  datatype Link = Null | To(id: Id)

  /** What an entry is looked up by. */
  datatype Info = Info(key: int, hash: nat)
  type Infos = map<Id, Info>

  // ----- chains -----

  function LinkAt(chain: seq<Id>, i: nat): Link { if i < |chain| then To(chain[i]) else Null }

  /** The list that starts at `head` and goes on through `next` is `chain`. */
  predicate IsChain(head: Link, next: map<Id, Link>, chain: seq<Id>) {
    && head == LinkAt(chain, 0)
    && forall i :: 0 <= i < |chain| ==> chain[i] in next && next[chain[i]] == LinkAt(chain, i + 1)
  }

  /** Entries of chain `b`: in their own bucket, each once, no two for the same key. */
  predicate ChainOk(infos: Infos, length: nat, chain: seq<Id>, b: nat) {
    && length > 0 && NoDup(chain)
    && (forall i :: 0 <= i < |chain| ==> chain[i] in infos && infos[chain[i]].hash % length == b)
    && (forall i, j :: 0 <= i < j < |chain| ==> infos[chain[i]] != infos[chain[j]])
  }

  predicate ChainsOk(infos: Infos, heads: seq<Link>, next: map<Id, Link>, chains: seq<seq<Id>>) {
    && |heads| == |chains|
    && (forall b :: 0 <= b < |chains| ==> IsChain(heads[b], next, chains[b]))
    && (forall b :: 0 <= b < |chains| ==> ChainOk(infos, |chains|, chains[b], b))
  }

  function Total(chains: seq<seq<Id>>): nat {
    if chains == [] then 0 else Total(chains[..|chains| - 1]) + |chains[|chains| - 1]|
  }

  lemma {:induction false} TotalUpdate(chains: seq<seq<Id>>, b: nat, chain: seq<Id>)
    requires b < |chains|
    ensures Total(chains[b := chain]) == Total(chains) - |chains[b]| + |chain| && Total(chains) >= |chains[b]|
  {
    var m := |chains| - 1;
    if b == m {
      assert chains[b := chain][..m] == chains[..m];
    } else {
      assert chains[b := chain][..m] == chains[..m][b := chain];
      TotalUpdate(chains[..m], b, chain);
    }
  }

  /** The entries of the table. */
  predicate Has(chains: seq<seq<Id>>, id: Id) {
    exists b :: 0 <= b < |chains| && id in chains[b]
  }

  ghost predicate SameMembers(chains: seq<seq<Id>>, chains': seq<seq<Id>>) {
    forall id :: Has(chains', id) <==> Has(chains, id)
  }

  /** An entry is in the chain of its bucket and no other. */
  lemma {:induction false} OwnBucket(infos: Infos, heads: seq<Link>, next: map<Id, Link>, chains: seq<seq<Id>>, id: Id)
    requires ChainsOk(infos, heads, next, chains)
    ensures Has(chains, id) <==>
              id in infos && |chains| > 0 && infos[id].hash % |chains| < |chains| &&
              id in chains[infos[id].hash % |chains|]
  {
    if Has(chains, id) {
      var b :| 0 <= b < |chains| && id in chains[b];
      assert ChainOk(infos, |chains|, chains[b], b);
      var i :| 0 <= i < |chains[b]| && chains[b][i] == id;
    }
  }

  /** No two entries of the table are for the same key. */
  lemma {:induction false} OnePerKey(infos: Infos, heads: seq<Link>, next: map<Id, Link>, chains: seq<seq<Id>>, x: Id,
                                     y: Id)
    requires ChainsOk(infos, heads, next, chains) && Has(chains, x) && Has(chains, y)
    ensures x in infos && y in infos && (infos[x] == infos[y] ==> x == y)
  {
    OwnBucket(infos, heads, next, chains, x);
    OwnBucket(infos, heads, next, chains, y);
    var b := infos[x].hash % |chains|;
    if infos[x] == infos[y] {
      assert ChainOk(infos, |chains|, chains[b], b);
      var i :| 0 <= i < |chains[b]| && chains[b][i] == x;
      var j :| 0 <= j < |chains[b]| && chains[b][j] == y;
    }
  }

  // ----- changing a chain -----

  lemma {:induction false} OtherChain(infos: Infos, heads: seq<Link>, next: map<Id, Link>, chains: seq<seq<Id>>,
                                      b: nat, c: nat, i: nat, j: nat)
    requires ChainsOk(infos, heads, next, chains) && b < |chains| && c < |chains| && b != c && i < |chains[b]| &&
             j < |chains[c]|
    ensures chains[b][i] != chains[c][j]
  {
    assert ChainOk(infos, |chains|, chains[b], b) && ChainOk(infos, |chains|, chains[c], c);
  }

  /** The entry at place `i` of a chain makes way for `h`, or `h` is put at the end. */
  function Put(chain: seq<Id>, i: nat, h: Id): seq<Id>
    requires i <= |chain|
  {
    if i < |chain| then chain[i := h] else chain + [h]
  }

  /** Setting the link that leads to place `i` of a chain. */
  function SetHead(head: Link, i: nat, l: Link): Link { if i == 0 then l else head }

  function SetNext(next: map<Id, Link>, chain: seq<Id>, i: nat, l: Link): map<Id, Link>
    requires i <= |chain|
  {
    if i == 0 then next else next[chain[i - 1] := l]
  }

  lemma {:induction false} PutAt(chain: seq<Id>, i: nat, h: Id, j: nat)
    requires i <= |chain| && j < |Put(chain, i, h)|
    ensures |Put(chain, i, h)| == (if i < |chain| then |chain| else |chain| + 1) &&
            Put(chain, i, h)[j] == if j == i then h else chain[j]
  {
  }

  lemma {:induction false} PutIsChain(head: Link, next: map<Id, Link>, chain: seq<Id>, i: nat, h: Id)
    requires IsChain(head, next, chain) && NoDup(chain) && i <= |chain| && h !in chain
    ensures var next1 := next[h := if i < |chain| then next[chain[i]] else Null];
            IsChain(SetHead(head, i, To(h)), SetNext(next1, chain, i, To(h)), Put(chain, i, h))
  {
    var next1 := next[h := if i < |chain| then next[chain[i]] else Null];
    var chain', next' := Put(chain, i, h), SetNext(next1, chain, i, To(h));
    hide Put, SetNext, NoDup, IsChain;
    forall j | 0 <= j < |chain'|
      ensures chain'[j] in next' && next'[chain'[j]] == LinkAt(chain', j + 1)
    {
      PutLinks(head, next, chain, i, h, j);
    }
    PutStarts(head, next, chain, i, h);
    ChainFold(SetHead(head, i, To(h)), next', chain');
  }

  lemma {:induction false} ChainFold(head: Link, next: map<Id, Link>, chain: seq<Id>)
    requires head == LinkAt(chain, 0) &&
             forall i :: 0 <= i < |chain| ==> chain[i] in next && next[chain[i]] == LinkAt(chain, i + 1)
    ensures IsChain(head, next, chain)
  {
  }

  lemma {:induction false} PutStarts(head: Link, next: map<Id, Link>, chain: seq<Id>, i: nat, h: Id)
    requires IsChain(head, next, chain) && i <= |chain|
    ensures SetHead(head, i, To(h)) == LinkAt(Put(chain, i, h), 0)
  {
    PutAt(chain, i, h, 0);
  }

  /** The links of a chain after the put, one place at a time. */
  lemma {:induction false} PutLinks(head: Link, next: map<Id, Link>, chain: seq<Id>, i: nat, h: Id, j: nat)
    requires IsChain(head, next, chain) && NoDup(chain) && i <= |chain| && h !in chain && j < |Put(chain, i, h)|
    ensures var chain' := Put(chain, i, h);
            var next' := SetNext(next[h := if i < |chain| then next[chain[i]] else Null], chain, i, To(h));
            chain'[j] in next' && next'[chain'[j]] == LinkAt(chain', j + 1)
  {
    PutAt(chain, i, h, j);
    if j + 1 < |Put(chain, i, h)| { PutAt(chain, i, h, j + 1); }
    hide Put;
    if j < |chain| { assert chain[j] in next && next[chain[j]] == LinkAt(chain, j + 1); }
    if 0 < i && j != i { assert j < i - 1 ==> chain[j] != chain[i - 1]; assert i - 1 < j ==> chain[i - 1] != chain[j]; }
  }

  lemma {:induction false} DropIsChain(head: Link, next: map<Id, Link>, chain: seq<Id>, i: nat)
    requires IsChain(head, next, chain) && NoDup(chain) && i < |chain|
    ensures IsChain(SetHead(head, i, next[chain[i]]), SetNext(next, chain, i, next[chain[i]]), Drop(chain, i))
  {
    var chain', next' := Drop(chain, i), SetNext(next, chain, i, next[chain[i]]);
    assert |chain'| == |chain| - 1;
    forall j | 0 <= j < |chain'| ensures chain'[j] in next' && next'[chain'[j]] == LinkAt(chain', j + 1) {
      DropAt(chain, i, j);
      if j + 1 < |chain'| { DropAt(chain, i, j + 1); }
    }
    if |chain'| > 0 { DropAt(chain, i, 0); }
  }

  lemma {:induction false} ChainParts(infos: Infos, heads: seq<Link>, next: map<Id, Link>, chains: seq<seq<Id>>, b: nat)
    requires ChainsOk(infos, heads, next, chains) && b < |chains|
    ensures |heads| == |chains| && IsChain(heads[b], next, chains[b]) && ChainOk(infos, |chains|, chains[b], b)
  {
  }

  lemma {:induction false} ChainHead(infos: Infos, heads: seq<Link>, next: map<Id, Link>, chains: seq<seq<Id>>, b: nat)
    requires ChainsOk(infos, heads, next, chains) && b < |chains|
    ensures |heads| == |chains| && heads[b] == LinkAt(chains[b], 0)
    ensures if chains[b] != [] then heads[b] == To(chains[b][0]) && chains[b][0] in infos && chains[b][0] in next
            else heads[b] == Null
  {
    ChainParts(infos, heads, next, chains, b);
  }

  lemma {:induction false} ChainNext(infos: Infos, heads: seq<Link>, next: map<Id, Link>, chains: seq<seq<Id>>,
                                     b: nat, i: nat)
    requires ChainsOk(infos, heads, next, chains) && b < |chains| && i < |chains[b]|
    ensures chains[b][i] in next && next[chains[b][i]] == LinkAt(chains[b], i + 1)
    ensures if i + 1 < |chains[b]|
            then LinkAt(chains[b], i + 1) == To(chains[b][i + 1]) && chains[b][i + 1] in infos &&
                 chains[b][i + 1] in next
            else LinkAt(chains[b], i + 1) == Null
  {
    ChainParts(infos, heads, next, chains, b);
  }

  lemma {:induction false} PutChainOk(infos: Infos, length: nat, chain: seq<Id>, b: nat, i: nat, h: Id)
    requires ChainOk(infos, length, chain, b) && i <= |chain| && h in infos && infos[h].hash % length == b
    requires h !in chain && Only(infos, chain, i, infos[h])
    ensures ChainOk(infos, length, Put(chain, i, h), b)
  {
    var chain' := Put(chain, i, h);
    assert forall j :: 0 <= j < |chain'| ==> chain'[j] == if j == i then h else chain[j];
  }

  lemma {:induction false} DropChainOk(infos: Infos, length: nat, chain: seq<Id>, b: nat, i: nat)
    requires ChainOk(infos, length, chain, b) && i < |chain|
    ensures ChainOk(infos, length, Drop(chain, i), b)
  {
    hide Drop;
    DropNoDup(chain, i);
    var chain' := Drop(chain, i);
    forall j | 0 <= j < |chain'| ensures chain'[j] in infos && infos[chain'[j]].hash % length == b {
      DropAt(chain, i, j);
    }
    forall j, k | 0 <= j < k < |chain'| ensures infos[chain'[j]] != infos[chain'[k]] {
      DropAt(chain, i, j);
      DropAt(chain, i, k);
    }
  }

  /** Only place `i` of the chain can hold an entry for `info`. */
  predicate Only(infos: Infos, chain: seq<Id>, i: nat, info: Info) {
    forall j :: 0 <= j < |chain| && j != i ==> chain[j] in infos && infos[chain[j]] != info
  }

  /** Links of the other chains are not touched by setting the link into place `i` of
      chain `b`, nor by setting the link of an entry that is in no chain. */
  lemma {:induction false} OthersFrame(infos: Infos, heads: seq<Link>, next: map<Id, Link>, chains: seq<seq<Id>>,
                                       b: nat, c: nat, next': map<Id, Link>)
    requires ChainsOk(infos, heads, next, chains) && b < |chains| && c < |chains| && b != c
    requires forall id :: id in next && id !in chains[b] && Has(chains, id) ==> id in next' && next'[id] == next[id]
    ensures IsChain(heads[c], next', chains[c])
  {
    ChainParts(infos, heads, next, chains, c);
    forall i | 0 <= i < |chains[c]| ensures chains[c][i] in next' && next'[chains[c][i]] == next[chains[c][i]] {
      forall j | 0 <= j < |chains[b]|
        ensures chains[b][j] != chains[c][i]
      {
        OtherChain(infos, heads, next, chains, b, c, j, i);
      }
      assert Has(chains, chains[c][i]);
    }
  }

  lemma {:induction false} ChangeOne(infos: Infos, heads: seq<Link>, next: map<Id, Link>, chains: seq<seq<Id>>,
                                     b: nat, head': Link, next': map<Id, Link>, chain': seq<Id>)
    requires ChainsOk(infos, heads, next, chains) && b < |chains|
    requires IsChain(head', next', chain') && ChainOk(infos, |chains|, chain', b)
    requires forall id :: id in next && id !in chains[b] && Has(chains, id) ==> id in next' && next'[id] == next[id]
    ensures ChainsOk(infos, heads[b := head'], next', chains[b := chain'])
  {
    var chains' := chains[b := chain'];
    forall c | 0 <= c < |chains'|
      ensures IsChain(heads[b := head'][c], next', chains'[c]) && ChainOk(infos, |chains'|, chains'[c], c)
    {
      if c != b {
        OthersFrame(infos, heads, next, chains, b, c, next');
        ChainParts(infos, heads, next, chains, c);
      }
    }
  }

  lemma {:induction false} HasOther(chains: seq<seq<Id>>, b: nat, chain': seq<Id>, id: Id)
    requires b < |chains|
    ensures Has(chains[b := chain'], id) <==> id in chain' || exists c :: 0 <= c < |chains| && c != b && id in chains[c]
  {
    var chains' := chains[b := chain'];
    if Has(chains', id) {
      var c :| 0 <= c < |chains'| && id in chains'[c];
    }
    if id in chain' { assert id in chains'[b]; }
    if c :| 0 <= c < |chains| && c != b && id in chains[c] { assert id in chains'[c]; }
  }

  lemma {:induction false} InPut(chain: seq<Id>, i: nat, h: Id, id: Id)
    requires i <= |chain| && NoDup(chain)
    ensures id in Put(chain, i, h) <==> id == h || (id in chain && !(i < |chain| && id == chain[i]))
  {
    var chain' := Put(chain, i, h);
    assert chain'[i] == h;
    if id in chain && !(i < |chain| && id == chain[i]) {
      var j :| 0 <= j < |chain| && chain[j] == id;
      assert chain'[j] == id;
    }
  }

  /** Putting an entry into the place found for it. */
  lemma {:induction false} PutKeeps(infos: Infos, heads: seq<Link>, next: map<Id, Link>, chains: seq<seq<Id>>, b: nat,
                                    i: nat, h: Id)
    requires ChainsOk(infos, heads, next, chains) && b < |chains| && i <= |chains[b]|
    requires h in infos && infos[h].hash % |chains| == b && !Has(chains, h) && Only(infos, chains[b], i, infos[h])
    ensures |heads| == |chains| && (i < |chains[b]| ==> chains[b][i] in next)
    ensures var next1 := next[h := if i < |chains[b]| then next[chains[b][i]] else Null];
            ChainsOk(infos, heads[b := SetHead(heads[b], i, To(h))], SetNext(next1, chains[b], i, To(h)),
                     chains[b := Put(chains[b], i, h)])
    ensures Total(chains[b := Put(chains[b], i, h)]) == Total(chains) + (if i < |chains[b]| then 0 else 1)
  {
    hide ChainsOk, Has;
    var chain := chains[b];
    ChainParts(infos, heads, next, chains, b);
    NotIn(chains, b, h);
    PutIsChain(heads[b], next, chain, i, h);
    PutChainOk(infos, |chains|, chain, b, i, h);
    var next1 := next[h := if i < |chains[b]| then next[chains[b][i]] else Null];
    ChangeOne(infos, heads, next, chains, b, SetHead(heads[b], i, To(h)), SetNext(next1, chain, i, To(h)),
              Put(chain, i, h));
    TotalUpdate(chains, b, Put(chain, i, h));
  }

  lemma {:induction false} PutMembers(infos: Infos, heads: seq<Link>, next: map<Id, Link>, chains: seq<seq<Id>>,
                                      b: nat, i: nat, h: Id, id: Id)
    requires ChainsOk(infos, heads, next, chains) && b < |chains| && i <= |chains[b]|
    ensures Has(chains[b := Put(chains[b], i, h)], id) <==>
              id == h || (Has(chains, id) && !(i < |chains[b]| && id == chains[b][i]))
  {
    hide ChainsOk, Has, Put;
    ChainParts(infos, heads, next, chains, b);
    InPut(chains[b], i, h, id);
    HasOther(chains, b, Put(chains[b], i, h), id);
    HasOther(chains, b, chains[b], id);
    assert chains[b := chains[b]] == chains;
    if c :| 0 <= c < |chains| && c != b && id in chains[c] {
      var k :| 0 <= k < |chains[c]| && chains[c][k] == id;
      if i < |chains[b]| { OtherChain(infos, heads, next, chains, b, c, i, k); }
    }
  }

  /** Taking an entry out. */
  lemma {:induction false} DropKeeps(infos: Infos, heads: seq<Link>, next: map<Id, Link>, chains: seq<seq<Id>>,
                                     b: nat, i: nat)
    requires ChainsOk(infos, heads, next, chains) && b < |chains| && i < |chains[b]|
    ensures |heads| == |chains| && chains[b][i] in next
    ensures var l := next[chains[b][i]];
            ChainsOk(infos, heads[b := SetHead(heads[b], i, l)], SetNext(next, chains[b], i, l),
                     chains[b := Drop(chains[b], i)])
    ensures Total(chains[b := Drop(chains[b], i)]) == Total(chains) - 1
  {
    hide ChainsOk, Has, Drop;
    var chain := chains[b];
    ChainParts(infos, heads, next, chains, b);
    DropIsChain(heads[b], next, chain, i);
    DropChainOk(infos, |chains|, chain, b, i);
    var l := next[chain[i]];
    ChangeOne(infos, heads, next, chains, b, SetHead(heads[b], i, l), SetNext(next, chain, i, l), Drop(chain, i));
    TotalUpdate(chains, b, Drop(chain, i));
    assert |Drop(chain, i)| == |chain| - 1 by { DropLength(chain, i); }
  }

  lemma {:induction false} NotIn(chains: seq<seq<Id>>, b: nat, h: Id)
    requires b < |chains| && !Has(chains, h)
    ensures h !in chains[b]
  {
  }

  lemma {:induction false} DropMembers(infos: Infos, heads: seq<Link>, next: map<Id, Link>, chains: seq<seq<Id>>,
                                       b: nat, i: nat, id: Id)
    requires ChainsOk(infos, heads, next, chains) && b < |chains| && i < |chains[b]|
    ensures Has(chains[b := Drop(chains[b], i)], id) <==> Has(chains, id) && id != chains[b][i]
  {
    hide ChainsOk, Has, Drop;
    ChainParts(infos, heads, next, chains, b);
    InDrop(chains[b], i, id);
    HasOther(chains, b, Drop(chains[b], i), id);
    HasOther(chains, b, chains[b], id);
    assert chains[b := chains[b]] == chains;
    if c :| 0 <= c < |chains| && c != b && id in chains[c] {
      var k :| 0 <= k < |chains[c]| && chains[c][k] == id;
      OtherChain(infos, heads, next, chains, b, c, i, k);
    }
  }

  /** A table speaks only of its own entries' keys. */
  lemma {:induction false} InfosGrow(infos: Infos, infos': Infos, heads: seq<Link>, next: map<Id, Link>,
                                     chains: seq<seq<Id>>)
    requires ChainsOk(infos, heads, next, chains)
    requires forall id :: id in infos && Has(chains, id) ==> id in infos' && infos'[id] == infos[id]
    ensures ChainsOk(infos', heads, next, chains)
  {
    forall b | 0 <= b < |chains| ensures ChainOk(infos', |chains|, chains[b], b) {
      ChainParts(infos, heads, next, chains, b);
      forall i | 0 <= i < |chains[b]| ensures chains[b][i] in infos' && infos'[chains[b][i]] == infos[chains[b][i]] {
        assert Has(chains, chains[b][i]);
      }
    }
  }

  // ----- growing -----

  /** The table before it grows. */
  datatype Old = Old(infos: Infos, heads: seq<Link>, next: map<Id, Link>, chains: seq<seq<Id>>)

  ghost predicate OldOk(o: Old) { ChainsOk(o.infos, o.heads, o.next, o.chains) }

  /** Place `j` of chain `c` comes before place `k` of chain `b`. */
  predicate Earlier(c: int, j: int, b: nat, k: nat) { c < b || (c == b && j < k) }

  predicate Before(chains: seq<seq<Id>>, b: nat, k: nat, id: Id) {
    exists c, j :: 0 <= c < |chains| && 0 <= j < |chains[c]| && chains[c][j] == id && Earlier(c, j, b, k)
  }

  /** What lies ahead of place `k` of chain `b` is still linked as it was. */
  predicate Ahead(o: Old, b: nat, k: nat, next: map<Id, Link>) {
    forall c, j :: 0 <= c < |o.chains| && 0 <= j < |o.chains[c]| && !Earlier(c, j, b, k) ==>
      o.chains[c][j] in o.next && o.chains[c][j] in next && next[o.chains[c][j]] == o.next[o.chains[c][j]]
  }

  ghost predicate MovedMembers(o: Old, b: nat, k: nat, newChains: seq<seq<Id>>) {
    forall id :: Has(newChains, id) <==> Before(o.chains, b, k, id)
  }

  /** Everything before place `k` of chain `b` has been moved to the new chains. */
  ghost predicate Moved(o: Old, b: nat, k: nat, newHeads: seq<Link>, next: map<Id, Link>, newChains: seq<seq<Id>>) {
    && ChainsOk(o.infos, newHeads, next, newChains)
    && MovedMembers(o, b, k, newChains)
    && Ahead(o, b, k, next)
    && b <= |o.chains| && Total(newChains) == Total(o.chains[..b]) + k
  }

  lemma {:induction false} MovedStart(o: Old, n: nat)
    requires OldOk(o) && n > 0
    ensures Moved(o, 0, 0, seq(n, i => Null), o.next, seq(n, i => []))
  {
    var heads, chains: seq<seq<Id>> := seq(n, i => Null), seq(n, i => []);
    TotalEmpty(chains);
    forall c, j | 0 <= c < |o.chains| && 0 <= j < |o.chains[c]| ensures o.chains[c][j] in o.next {
      ChainParts(o.infos, o.heads, o.next, o.chains, c);
    }
  }

  lemma {:induction false} TotalEmpty(chains: seq<seq<Id>>)
    requires forall i :: 0 <= i < |chains| ==> chains[i] == []
    ensures Total(chains) == 0
  {
    if chains != [] { TotalEmpty(chains[..|chains| - 1]); }
  }

  lemma {:induction false} SamePlace(o: Old, b: nat, k: nat, c: nat, j: nat)
    requires OldOk(o) && b < |o.chains| && k < |o.chains[b]| && c < |o.chains| && j < |o.chains[c]| &&
             o.chains[b][k] == o.chains[c][j]
    ensures b == c && k == j
  {
    ChainParts(o.infos, o.heads, o.next, o.chains, b);
    ChainParts(o.infos, o.heads, o.next, o.chains, c);
  }

  lemma {:induction false} BeforeNext(o: Old, b: nat, k: nat, id: Id)
    requires OldOk(o) && b < |o.chains| && k < |o.chains[b]|
    ensures Before(o.chains, b, k + 1, id) <==> Before(o.chains, b, k, id) || id == o.chains[b][k]
    ensures !Before(o.chains, b, k, o.chains[b][k])
  {
    hide OldOk;
    var h := o.chains[b][k];
    if Before(o.chains, b, k + 1, id) {
      var c, j :| 0 <= c < |o.chains| && 0 <= j < |o.chains[c]| && o.chains[c][j] == id && Earlier(c, j, b, k + 1);
      if !Earlier(c, j, b, k) { assert c == b && j == k; }
    }
    if Before(o.chains, b, k, id) {
      var c, j :| 0 <= c < |o.chains| && 0 <= j < |o.chains[c]| && o.chains[c][j] == id && Earlier(c, j, b, k);
      assert Earlier(c, j, b, k + 1);
    }
    if Before(o.chains, b, k, h) {
      var c, j :| 0 <= c < |o.chains| && 0 <= j < |o.chains[c]| && o.chains[c][j] == h && Earlier(c, j, b, k);
      SamePlace(o, b, k, c, j);
    }
    assert Earlier(b, k, b, k + 1);
  }

  lemma {:induction false} PushChain(infos: Infos, length: nat, head: Link, next: map<Id, Link>, chain: seq<Id>,
                                     b: nat, h: Id)
    requires IsChain(head, next, chain) && ChainOk(infos, length, chain, b) && h !in chain && h in infos &&
             infos[h].hash % length == b
    requires forall j :: 0 <= j < |chain| ==> infos[chain[j]] != infos[h]
    ensures IsChain(To(h), next[h := head], [h] + chain) && ChainOk(infos, length, [h] + chain, b)
  {
    var chain' := [h] + chain;
    assert forall j :: 0 <= j < |chain'| ==> chain'[j] == if j == 0 then h else chain[j - 1];
  }

  lemma {:induction false} HeadNotBefore(o: Old, b: nat, k: nat, newHeads: seq<Link>, next: map<Id, Link>,
                                         newChains: seq<seq<Id>>, id: Id)
    requires OldOk(o) && b < |o.chains| && k < |o.chains[b]| && MovedMembers(o, b, k, newChains) && Has(newChains, id)
    ensures id != o.chains[b][k] && id in o.infos && o.chains[b][k] in o.infos && o.infos[id] != o.infos[o.chains[b][k]]
  {
    BeforeNext(o, b, k, id);
    assert Has(o.chains, id) && Has(o.chains, o.chains[b][k]);
    OnePerKey(o.infos, o.heads, o.next, o.chains, id, o.chains[b][k]);
  }

  lemma {:induction false} DifferentPlace(o: Old, b: nat, k: nat, c: nat, j: nat)
    requires OldOk(o) && b < |o.chains| && k < |o.chains[b]| && c < |o.chains| && j < |o.chains[c]| &&
             !Earlier(c, j, b, k + 1)
    ensures o.chains[b][k] != o.chains[c][j]
  {
    ChainParts(o.infos, o.heads, o.next, o.chains, b);
    ChainParts(o.infos, o.heads, o.next, o.chains, c);
  }

  lemma {:induction false} AheadNext(o: Old, b: nat, k: nat, next: map<Id, Link>, l: Link)
    requires OldOk(o) && b < |o.chains| && k < |o.chains[b]| && Ahead(o, b, k, next)
    ensures Ahead(o, b, k + 1, next[o.chains[b][k] := l])
  {
    var next' := next[o.chains[b][k] := l];
    forall c, j | 0 <= c < |o.chains| && 0 <= j < |o.chains[c]| && !Earlier(c, j, b, k + 1)
      ensures o.chains[c][j] in o.next && o.chains[c][j] in next' && next'[o.chains[c][j]] == o.next[o.chains[c][j]]
    {
      assert !Earlier(c, j, b, k);
      DifferentPlace(o, b, k, c, j);
    }
  }

  lemma {:induction false} MembersNext(o: Old, b: nat, k: nat, newChains: seq<seq<Id>>, nb: nat)
    requires OldOk(o) && b < |o.chains| && k < |o.chains[b]| && MovedMembers(o, b, k, newChains) && nb < |newChains|
    ensures MovedMembers(o, b, k + 1, newChains[nb := [o.chains[b][k]] + newChains[nb]])
  {
    hide Has, Before, OldOk;
    var h := o.chains[b][k];
    var newChains' := newChains[nb := [h] + newChains[nb]];
    forall id ensures Has(newChains', id) <==> Before(o.chains, b, k + 1, id) {
      HasOther(newChains, nb, [h] + newChains[nb], id);
      HasOther(newChains, nb, newChains[nb], id);
      assert newChains[nb := newChains[nb]] == newChains;
      BeforeNext(o, b, k, id);
    }
  }

  /** One entry goes to the front of its new chain. */
  lemma {:induction false} MoveOne(o: Old, b: nat, k: nat, newHeads: seq<Link>, next: map<Id, Link>,
                                   newChains: seq<seq<Id>>)
    requires OldOk(o) && Moved(o, b, k, newHeads, next, newChains) && b < |o.chains| && k < |o.chains[b]| &&
             |newChains| > 0
    ensures o.chains[b][k] in o.infos && |newHeads| == |newChains|
    ensures var h := o.chains[b][k];
            var nb := o.infos[h].hash % |newChains|;
            Moved(o, b, k + 1, newHeads[nb := To(h)], next[h := newHeads[nb]], newChains[nb := [h] + newChains[nb]])
  {
    hide ChainsOk, Has, Before, MovedMembers, Ahead, Total;
    var h := o.chains[b][k];
    assert h in o.infos by { InInfos(o, b, k); }
    var nb := o.infos[h].hash % |newChains|;
    ChainParts(o.infos, newHeads, next, newChains, nb);
    var chain := newChains[nb];
    forall j | 0 <= j < |chain| ensures chain[j] != h && o.infos[chain[j]] != o.infos[h] {
      assert Has(newChains, chain[j]) by { HasAt(newChains, nb, j); }
      HeadNotBefore(o, b, k, newHeads, next, newChains, chain[j]);
    }
    PushChain(o.infos, |newChains|, newHeads[nb], next, chain, nb, h);
    assert forall id :: id in next && id !in newChains[nb] && Has(newChains, id) ==>
                        id in next[h := newHeads[nb]] && next[h := newHeads[nb]][id] == next[id] by {
      forall id | Has(newChains, id) ensures id != h { HeadNotBefore(o, b, k, newHeads, next, newChains, id); }
    }
    ChangeOne(o.infos, newHeads, next, newChains, nb, To(h), next[h := newHeads[nb]], [h] + chain);
    MembersNext(o, b, k, newChains, nb);
    AheadNext(o, b, k, next, newHeads[nb]);
    TotalUpdate(newChains, nb, [h] + chain);
  }

  lemma {:induction false} HasAt(chains: seq<seq<Id>>, b: nat, j: nat)
    requires b < |chains| && j < |chains[b]|
    ensures Has(chains, chains[b][j])
  {
  }

  lemma {:induction false} InInfos(o: Old, b: nat, k: nat)
    requires OldOk(o) && b < |o.chains| && k < |o.chains[b]|
    ensures o.chains[b][k] in o.infos
  {
    ChainParts(o.infos, o.heads, o.next, o.chains, b);
  }

  /** The end of a chain is the start of the next. */
  lemma {:induction false} NextBucket(o: Old, b: nat, newHeads: seq<Link>, next: map<Id, Link>, newChains: seq<seq<Id>>)
    requires b < |o.chains| && Moved(o, b, |o.chains[b]|, newHeads, next, newChains)
    ensures Moved(o, b + 1, 0, newHeads, next, newChains)
  {
    hide ChainsOk, Has;
    var k := |o.chains[b]|;
    assert o.chains[..b + 1][..b] == o.chains[..b];
    forall id ensures Before(o.chains, b + 1, 0, id) <==> Before(o.chains, b, k, id) {
      assert forall c, j :: 0 <= c < |o.chains| && 0 <= j < |o.chains[c]| ==>
               (Earlier(c, j, b + 1, 0) <==> Earlier(c, j, b, k));
    }
    assert Ahead(o, b + 1, 0, next) by {
      assert forall c, j :: 0 <= c < |o.chains| && 0 <= j < |o.chains[c]| ==>
               (Earlier(c, j, b + 1, 0) <==> Earlier(c, j, b, k));
    }
  }

  /** At the end the new chains hold what the old ones held. */
  lemma {:induction false} AllMoved(o: Old, newHeads: seq<Link>, next: map<Id, Link>, newChains: seq<seq<Id>>)
    requires Moved(o, |o.chains|, 0, newHeads, next, newChains)
    ensures ChainsOk(o.infos, newHeads, next, newChains) && SameMembers(o.chains, newChains) &&
            Total(newChains) == Total(o.chains)
  {
    var b := |o.chains|;
    assert o.chains[..b] == o.chains;
    forall id ensures Has(newChains, id) <==> Has(o.chains, id) {
      assert Has(newChains, id) <==> Before(o.chains, b, 0, id);
      if Has(o.chains, id) {
        var c :| 0 <= c < |o.chains| && id in o.chains[c];
        var j :| 0 <= j < |o.chains[c]| && o.chains[c][j] == id;
        assert Earlier(c, j, b, 0);
      }
    }
  }

  lemma {:induction false} AheadAt(o: Old, b: nat, k: nat, newHeads: seq<Link>, next: map<Id, Link>,
                                   newChains: seq<seq<Id>>)
    requires OldOk(o) && b < |o.chains| && k < |o.chains[b]| && Moved(o, b, k, newHeads, next, newChains)
    ensures o.chains[b][k] in next && next[o.chains[b][k]] == LinkAt(o.chains[b], k + 1) && o.chains[b][k] in o.infos
  {
    ChainParts(o.infos, o.heads, o.next, o.chains, b);
    assert !Earlier(b, k, b, k);
  }

  // ----- the table -----

  predicate PowerOfTwo(n: nat) { n == 1 || (n > 1 && n % 2 == 0 && PowerOfTwo(n / 2)) }

  /** The bitwise conjunction of two numbers. */
  function And(x: nat, y: nat): nat {
    if x == 0 || y == 0 then 0 else (if x % 2 == 1 && y % 2 == 1 then 1 else 0) + 2 * And(x / 2, y / 2)
  }

  lemma {:induction false} AndOdd(x: nat, m: nat)
    requires x > 0 && m > 0
    ensures And(x, 2 * m - 1) == x % 2 + 2 * And(x / 2, m - 1)
  {
    assert (2 * m - 1) / 2 == m - 1 && (2 * m - 1) % 2 == 1;
  }

  /** A mask of ones takes the remainder. */
  lemma {:induction false} MaskIsRemainder(x: nat, n: nat)
    requires PowerOfTwo(n)
    ensures And(x, n - 1) == x % n
  {
    if n == 1 || x == 0 {
      AndZero(x, n);
    } else {
      hide And;
      var m := n / 2;
      assert n == 2 * m;
      MaskIsRemainder(x / 2, m);
      HalfRemainder(x, m);
      AndOdd(x, m);
    }
  }

  lemma {:induction false} AndZero(x: nat, n: nat)
    requires n > 0 && (n == 1 || x == 0)
    ensures And(x, n - 1) == 0 == x % n
  {
  }

  /** Where a link is kept: at the head of a bucket or in an entry. */
  datatype Slot = HeadOf(bucket: nat) | NextOf(id: Id)

  function SlotAt(chain: seq<Id>, b: nat, i: nat): Slot
    requires i <= |chain|
  {
    if i == 0 then HeadOf(b) else NextOf(chain[i - 1])
  }

  /** The entry of the table for a key: at most one. */
  ghost predicate Finds(infos: Infos, chains: seq<seq<Id>>, info: Info, l: Link) {
    match l
    case To(id) => Has(chains, id) && id in infos && infos[id] == info
    case Null => forall id :: Has(chains, id) && id in infos ==> infos[id] != info
  }

  ghost predicate After(chains: seq<seq<Id>>, chains': seq<seq<Id>>, taken: Link, added: Link) {
    forall id :: Has(chains', id) <==> added == To(id) || (Has(chains, id) && taken != To(id))
  }

  lemma {:induction false} OldFold(o: Old)
    requires ChainsOk(o.infos, o.heads, o.next, o.chains)
    ensures OldOk(o)
  {
  }

  lemma {:induction false} Lengths(o: Old)
    requires OldOk(o)
    ensures |o.heads| == |o.chains| && forall b :: 0 <= b < |o.heads| ==> o.heads[b] == LinkAt(o.chains[b], 0)
  {
  }

  lemma {:induction false} OkFold(t: HandleTable, infos: Infos)
    requires ChainsOk(infos, t.heads, t.next, t.chains) && t.elems == Total(t.chains) && |t.heads| >= 4 &&
             PowerOfTwo(|t.heads|)
    ensures t.Ok(infos)
  {
  }

  lemma {:induction false} OkUnfold(t: HandleTable, infos: Infos)
    requires t.Ok(infos)
    ensures ChainsOk(infos, t.heads, t.next, t.chains) && t.elems == Total(t.chains) && |t.heads| == |t.chains| >= 4 &&
            PowerOfTwo(|t.heads|)
  {
  }

  lemma {:induction false} LinkIs(chain: seq<Id>, i: nat)
    ensures LinkAt(chain, i) == if i < |chain| then To(chain[i]) else Null
  {
  }

  lemma {:induction false} SlotIs(chain: seq<Id>, b: nat, i: nat)
    requires i <= |chain|
    ensures SlotAt(chain, b, i) == if i == 0 then HeadOf(b) else NextOf(chain[i - 1])
  {
  }

  lemma {:induction false} SetIs(head: Link, next: map<Id, Link>, chain: seq<Id>, i: nat, l: Link)
    requires i <= |chain|
    ensures SetHead(head, i, l) == if i == 0 then l else head
    ensures SetNext(next, chain, i, l) == if i == 0 then next else next[chain[i - 1] := l]
  {
  }

  lemma {:induction false} PutAfter(o: Old, b: nat, i: nat, h: Id)
    requires ChainsOk(o.infos, o.heads, o.next, o.chains) && b < |o.chains| && i <= |o.chains[b]|
    ensures After(o.chains, o.chains[b := Put(o.chains[b], i, h)], LinkAt(o.chains[b], i), To(h))
  {
    hide ChainsOk, Has, Put;
    var chains' := o.chains[b := Put(o.chains[b], i, h)];
    forall id ensures Has(chains', id) <==> To(h) == To(id) || (Has(o.chains, id) && LinkAt(o.chains[b], i) != To(id)) {
      PutMembers(o.infos, o.heads, o.next, o.chains, b, i, h, id);
    }
  }

  lemma {:induction false} DropAfter(o: Old, b: nat, i: nat)
    requires ChainsOk(o.infos, o.heads, o.next, o.chains) && b < |o.chains| && i < |o.chains[b]|
    ensures After(o.chains, o.chains[b := Drop(o.chains[b], i)], To(o.chains[b][i]), Null)
  {
    hide ChainsOk, Has, Drop;
    forall id { DropMembers(o.infos, o.heads, o.next, o.chains, b, i, id); }
  }

  lemma {:induction false} SameAfter(chains: seq<seq<Id>>)
    ensures After(chains, chains, Null, Null)
  {
  }

  lemma {:induction false} ThenSame(chains: seq<seq<Id>>, mid: seq<seq<Id>>, chains': seq<seq<Id>>, taken: Link,
                                    added: Link)
    requires After(chains, mid, taken, added) && SameMembers(mid, chains')
    ensures After(chains, chains', taken, added)
  {
    hide Has;
  }

  lemma {:induction false} FoundIsIt(infos: Infos, heads: seq<Link>, next: map<Id, Link>, chains: seq<seq<Id>>,
                                     info: Info, i: nat)
    requires ChainsOk(infos, heads, next, chains) && |chains| > 0
    requires var chain := chains[info.hash % |chains|];
             && i <= |chain| && (forall j :: 0 <= j < i ==> chain[j] in infos && infos[chain[j]] != info)
             && (i < |chain| ==> chain[i] in infos && infos[chain[i]] == info)
    ensures Finds(infos, chains, info, LinkAt(chains[info.hash % |chains|], i))
    ensures Only(infos, chains[info.hash % |chains|], i, info)
  {
    var b := info.hash % |chains|;
    var chain := chains[b];
    ChainParts(infos, heads, next, chains, b);
    if i < |chain| {
      HasAt(chains, b, i);
    } else {
      forall id | Has(chains, id) && id in infos ensures infos[id] != info {
        OwnBucket(infos, heads, next, chains, id);
      }
    }
  }

  /** Twice four, as often as it takes. */
  method NewLength(elems: nat) returns (n: nat)
    ensures n >= 4 && n >= elems && PowerOfTwo(n) && (n > 4 ==> n < 2 * elems)
  {
    n := 4;
    while n < elems
      invariant n >= 4 && PowerOfTwo(n) && (n > 4 ==> n < 2 * elems)
    {
      n := n * 2;
    }
  }

  /** Moves the entries of one old chain to the fronts of their new chains. */
  method MoveChain(infos: Infos, ghost o: Old, head: Link, ghost b: nat, newHeads: seq<Link>, next: map<Id, Link>,
                   ghost newChains: seq<seq<Id>>)
    returns (newHeads': seq<Link>, next': map<Id, Link>, ghost newChains': seq<seq<Id>>)
    requires OldOk(o) && infos == o.infos && b < |o.chains| && head == LinkAt(o.chains[b], 0)
    requires Moved(o, b, 0, newHeads, next, newChains) && |newHeads| == |newChains| > 0 && PowerOfTwo(|newHeads|)
    ensures Moved(o, b, |o.chains[b]|, newHeads', next', newChains') && |newHeads'| == |newHeads| == |newChains'|
  {
    hide *;
    newHeads', next', newChains' := newHeads, next, newChains;
    var h := head;
    ghost var k: nat := 0;
    LinkIs(o.chains[b], 0);
    while h != Null
      invariant k <= |o.chains[b]| && h == LinkAt(o.chains[b], k)
      invariant (h == Null) == (k == |o.chains[b]|) && (h != Null ==> h.id == o.chains[b][k])
      invariant Moved(o, b, k, newHeads', next', newChains') && |newHeads'| == |newHeads| == |newChains'|
      decreases |o.chains[b]| - k
    {
      AheadAt(o, b, k, newHeads', next', newChains');
      MoveOne(o, b, k, newHeads', next', newChains');
      LinkIs(o.chains[b], k + 1);
      var follow := next'[h.id];
      var nb := And(infos[h.id].hash, |newHeads'| - 1);
      MaskIsRemainder(infos[h.id].hash, |newHeads'|);
      next' := next'[h.id := newHeads'[nb]];
      newHeads' := newHeads'[nb := h];
      newChains' := newChains'[nb := [h.id] + newChains'[nb]];
      h, k := follow, k + 1;
    }
  }

  class HandleTable {
    var heads: seq<Link>
    var elems: nat
    var next: map<Id, Link>
    ghost var chains: seq<seq<Id>>

    ghost predicate Ok(infos: Infos)
      reads this
    {
      ChainsOk(infos, heads, next, chains) && elems == Total(chains) && |heads| >= 4 && PowerOfTwo(|heads|)
    }

    /** Sets up the first four buckets. */
    constructor ()
      ensures Ok(map[]) && forall id :: !Has(chains, id)
    {
      heads, elems, next, chains := [], 0, map[], [];
      new;
      Resize(map[]);
    }

    method Resize(infos: Infos)
      requires ChainsOk(infos, heads, next, chains) && elems == Total(chains)
      modifies this
      ensures Ok(infos) && elems == old(elems) && |heads| >= elems
      ensures SameMembers(old(chains), chains)
    {
      hide *;
      var newLength := NewLength(elems);
      ghost var o := Old(infos, heads, next, chains);
      assert OldOk(o) by { OldFold(o); }
      var newHeads, newNext := seq(newLength, i => Null), next;
      ghost var newChains: seq<seq<Id>> := seq(newLength, i => []);
      MovedStart(o, newLength);
      var b := 0;
      Lengths(o);
      while b < |heads|
        invariant b <= |heads| == |o.chains| && unchanged(this)
        invariant |newHeads| == |newChains| == newLength && Moved(o, b, 0, newHeads, newNext, newChains)
      {
        newHeads, newNext, newChains := MoveChain(infos, o, heads[b], b, newHeads, newNext, newChains);
        NextBucket(o, b, newHeads, newNext, newChains);
        b := b + 1;
      }
      AllMoved(o, newHeads, newNext, newChains);
      heads, next, chains := newHeads, newNext, newChains;
      OkFold(this, infos);
    }

    /** The place for a key: of its entry, or the end of its bucket's chain. */
    method FindPointer(infos: Infos, info: Info) returns (p: Slot, found: Link, ghost i: nat)
      requires Ok(infos)
      ensures |heads| == |chains| > 0
      ensures var b := info.hash % |heads|;
              i <= |chains[b]| && p == SlotAt(chains[b], b, i) && found == LinkAt(chains[b], i)
      ensures Only(infos, chains[info.hash % |heads|], i, info)
      ensures Finds(infos, chains, info, found)
    {
      hide *;
      OkUnfold(this, infos);
      var b := And(info.hash, |heads| - 1);
      MaskIsRemainder(info.hash, |heads|);
      ghost var chain := chains[b];
      p, found, i := HeadOf(b), heads[b], 0;
      ChainHead(infos, heads, next, chains, b);
      SlotIs(chain, b, 0);
      while found != Null && infos[found.id] != info
        invariant i <= |chain| && p == SlotAt(chain, b, i) && found == LinkAt(chain, i)
        invariant if i < |chain| then found == To(chain[i]) && chain[i] in infos && chain[i] in next else found == Null
        invariant forall j :: 0 <= j < i ==> chain[j] in infos && infos[chain[j]] != info
        decreases |chain| - i
      {
        ChainNext(infos, heads, next, chains, b, i);
        SlotIs(chain, b, i + 1);
        p := NextOf(found.id);
        found := next[found.id];
        i := i + 1;
      }
      FoundIsIt(infos, heads, next, chains, info, i);
    }

    method Write(p: Slot, l: Link)
      requires p.HeadOf? ==> p.bucket < |heads|
      modifies this`heads, this`next
      ensures match p
              case HeadOf(b) => heads == old(heads)[b := l] && next == old(next)
              case NextOf(id) => heads == old(heads) && next == old(next)[id := l]
    {
      match p
      case HeadOf(b) => heads := heads[b := l];
      case NextOf(id) => next := next[id := l];
    }

    method Lookup(infos: Infos, info: Info) returns (l: Link)
      requires Ok(infos)
      ensures Finds(infos, chains, info, l)
    {
      var p, found, i := FindPointer(infos, info);
      l := found;
    }

    method Insert(infos: Infos, h: Id) returns (old': Link)
      requires Ok(infos) && h in infos && !Has(chains, h)
      modifies this
      ensures Ok(infos)
      ensures Finds(infos, old(chains), infos[h], old')
      ensures After(old(chains), chains, old', To(h))
    {
      hide *;
      OkUnfold(this, infos);
      var p, found, i := FindPointer(infos, infos[h]);
      var b := infos[h].hash % |heads|;
      ghost var chain := chains[b];
      old' := found;
      ghost var was := Old(infos, heads, next, chains);
      PutKeeps(infos, heads, next, chains, b, i, h);
      LinkIs(chain, i);
      next := next[h := if old' == Null then Null else next[old'.id]];
      ghost var next1 := next;
      SlotIs(chain, b, i);
      Write(p, To(h));
      chains := chains[b := Put(chain, i, h)];
      SetIs(was.heads[b], next1, chain, i, To(h));
      assert heads == was.heads[b := SetHead(was.heads[b], i, To(h))];
      assert After(was.chains, chains, old', To(h)) by { PutAfter(was, b, i, h); }
      if old' == Null {
        elems := elems + 1;
        OkFold(this, infos);
        if elems > |heads| {
          ghost var mid := chains;
          Resize(infos);
          ThenSame(was.chains, mid, chains, old', To(h));
        }
      } else {
        OkFold(this, infos);
      }
    }

    method Remove(infos: Infos, info: Info) returns (l: Link)
      requires Ok(infos)
      modifies this
      ensures Ok(infos)
      ensures Finds(infos, old(chains), info, l)
      ensures After(old(chains), chains, l, Null)
    {
      hide *;
      OkUnfold(this, infos);
      var p, found, i := FindPointer(infos, info);
      var b := info.hash % |heads|;
      ghost var chain := chains[b];
      l := found;
      LinkIs(chain, i);
      ghost var was := Old(infos, heads, next, chains);
      if l != Null {
        DropKeeps(infos, heads, next, chains, b, i);
        SlotIs(chain, b, i);
        SetIs(heads[b], next, chain, i, next[l.id]);
        Write(p, next[l.id]);
        elems := elems - 1;
        chains := chains[b := Drop(chain, i)];
        assert heads == was.heads[b := SetHead(was.heads[b], i, was.next[l.id])];
        OkFold(this, infos);
        DropAfter(was, b, i);
      } else {
        SameAfter(chains);
      }
    }
  }
}
