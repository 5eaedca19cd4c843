/** The skip list of the memtable (db/skiplist.h): one writer, readers that take no
    lock. Every pointer load and store is a step of its own, taken in one total
    order. */
module SkipLists {

  const KMaxHeight: nat := 12

  type Key = real

  /** A link of a node: null, or the index of a node. */
  datatype Link = Nil | To(p: nat)

  /** A node with its links, lowest level first. */
  datatype Node = Node(key: Key, next: seq<Link>)

  datatype Query = GreaterOrEqual(k: Key) | LessThan(k: Key) | Last

  /** A search in progress at node `x` of `level`, or its result. */
  datatype Reader = Searching(q: Query, x: nat, level: nat) | Returned(q: Query, result: Link)

  /** Insert between its loads and stores. */
  datatype Writer =
    | Idle
    | Finding(key: Key, x: nat, level: nat, prev: seq<nat>)
    | Found(key: Key, prev: seq<nat>)
    | Linking(x: nat, i: nat, loaded: bool, prev: seq<nat>)

  /** Shared memory (nodes, node 0 being the head, and max_height_), the writer, the
      readers, and the nodes linked at each level in list order, head first. */
  datatype State = State(nodes: seq<Node>, maxHeight: nat, writer: Writer, readers: map<nat, Reader>,
                         levels: seq<seq<nat>>)

  function SetNext(nodes: seq<Node>, p: nat, l: nat, to: Link): seq<Node>
    requires p < |nodes| && l < |nodes[p].next|
  {
    nodes[p := nodes[p].(next := nodes[p].next[l := to])]
  }

  // ----- lists -----

  /** The links of level `l` lead through `lv` and end there. */
  ghost predicate Chain(nodes: seq<Node>, l: nat, lv: seq<nat>) {
    && lv != [] && lv[0] == 0
    && (forall i :: 0 <= i < |lv| ==> lv[i] < |nodes| && l < |nodes[lv[i]].next|)
    && (forall i :: 0 <= i < |lv| ==>
          nodes[lv[i]].next[l] == if i + 1 < |lv| then To(lv[i + 1]) else Nil)
  }

  /** Past the head, keys ascend strictly. */
  ghost predicate Ascends(nodes: seq<Node>, lv: seq<nat>) {
    && (forall i :: 0 <= i < |lv| ==> lv[i] < |nodes|)
    && (forall i :: 1 <= i < |lv| ==> lv[i] != 0)
    && (forall i, j :: 1 <= i < j < |lv| ==> nodes[lv[i]].key < nodes[lv[j]].key)
  }

  ghost predicate Lists(s: State) {
    && |s.levels| == KMaxHeight
    && 1 <= s.maxHeight <= KMaxHeight
    && (forall l :: 0 <= l < KMaxHeight ==> Chain(s.nodes, l, s.levels[l]) && Ascends(s.nodes, s.levels[l]))
    && (forall l :: s.maxHeight <= l < KMaxHeight ==> s.levels[l] == [0])
    && (forall l {:trigger Thins(s.levels, l)} :: 0 <= l < KMaxHeight - 1 ==> Thins(s.levels, l))
  }

  /** Every node of the level above is in this one; since both ascend, the level above
      is a subsequence of it. */
  ghost predicate Thins(levels: seq<seq<nat>>, l: nat)
    requires l + 1 < |levels|
  {
    forall x :: x in levels[l + 1] ==> x in levels[l]
  }

  /** The node sorts before the key; the head sorts before every key. */
  predicate Precedes(nodes: seq<Node>, x: nat, k: Key)
    requires x < |nodes|
  {
    x == 0 || nodes[x].key < k
  }

  /** `x` is the last node of `lv` that precedes `k`, and `k` itself is not in `lv`. */
  ghost predicate IsPred(nodes: seq<Node>, lv: seq<nat>, x: nat, k: Key) {
    exists i :: 0 <= i < |lv| && lv[i] == x && x < |nodes| && Precedes(nodes, x, k) &&
      (i + 1 < |lv| ==> lv[i + 1] < |nodes| && nodes[lv[i + 1]].key > k)
  }

  // ----- searches -----

  ghost predicate ReaderOk(s: State, r: Reader) {
    r.Searching? ==>
      && r.level < KMaxHeight && r.level < |s.levels|
      && r.x in s.levels[r.level] && r.x < |s.nodes|
      && match r.q
         case GreaterOrEqual(k) => Precedes(s.nodes, r.x, k)
         case LessThan(k) => Precedes(s.nodes, r.x, k)
         case Last => true
  }

  /** The loop continues at the loaded node: it comes before what is sought. */
  predicate GoesOn(nodes: seq<Node>, q: Query, next: Link)
    requires next.To? ==> next.p < |nodes|
  {
    next.To? && match q
                case GreaterOrEqual(k) => nodes[next.p].key < k
                case LessThan(k) => nodes[next.p].key < k
                case Last => true
  }

  /** One iteration of FindGreaterOrEqual, FindLessThan or FindLast: one load. */
  ghost predicate ReaderStep(nodes: seq<Node>, r: Reader, r': Reader) {
    && r.Searching? && r.x < |nodes| && r.level < |nodes[r.x].next|
    && var next := nodes[r.x].next[r.level];
    && (next.To? ==> next.p < |nodes|)
    && r' == if GoesOn(nodes, r.q, next) then Searching(r.q, next.p, r.level)
             else if r.level > 0 then Searching(r.q, r.x, r.level - 1)
             else Returned(r.q, if r.q.GreaterOrEqual? then next else To(r.x))
  }

  /** What a search over the list `lv` should return: the least key at or after `k`;
      the greatest below `k`, or the head; the last node, or the head. */
  ghost predicate Exact(nodes: seq<Node>, lv: seq<nat>, q: Query, result: Link) {
    match q
    case GreaterOrEqual(k) =>
      if result.Nil? then forall y :: y in lv && y < |nodes| ==> Precedes(nodes, y, k)
      else
        && result.p in lv && result.p != 0 && result.p < |nodes| && nodes[result.p].key >= k
        && forall y :: y in lv && y != 0 && y < |nodes| && nodes[y].key >= k ==> nodes[result.p].key <= nodes[y].key
    case LessThan(k) =>
      && result.To? && result.p in lv && result.p < |nodes| && Precedes(nodes, result.p, k)
      && forall y :: y in lv && y != 0 && y < |nodes| && nodes[y].key < k ==>
           result.p != 0 && nodes[y].key <= nodes[result.p].key
    case Last =>
      && result.To? && result.p in lv && result.p < |nodes|
      && forall y :: y in lv && y != 0 && y < |nodes| ==> result.p != 0 && nodes[y].key <= nodes[result.p].key
  }

  lemma {:induction false} StepLands(s: State, r: Reader, r': Reader)
    requires Lists(s) && ReaderOk(s, r) && ReaderStep(s.nodes, r, r')
    ensures ReaderOk(s, r')
  {
    var lv := s.levels[r.level];
    assert Chain(s.nodes, r.level, lv);
    var i :| 0 <= i < |lv| && lv[i] == r.x;
    assert i + 1 < |lv| ==> lv[i + 1] in lv;
    if r.level > 0 {
      assert Thins(s.levels, r.level - 1);
      assert r.x in s.levels[r.level - 1];
    }
  }

  /** A search that returns has the exact answer for the level-0 list at that load. */
  lemma {:induction false} ReturnsExactly(s: State, r: Reader, r': Reader)
    requires Lists(s) && ReaderOk(s, r) && ReaderStep(s.nodes, r, r') && r'.Returned?
    ensures Exact(s.nodes, s.levels[0], r'.q, r'.result)
  {
    var nodes, lv := s.nodes, s.levels[0];
    assert Chain(nodes, 0, lv) && Ascends(nodes, lv);
    var i :| 0 <= i < |lv| && lv[i] == r.x;
    forall y | y in lv && y != 0
      ensures y < |nodes|
      ensures (r.x != 0 && nodes[y].key <= nodes[r.x].key) || (i + 1 < |lv| && nodes[lv[i + 1]].key <= nodes[y].key)
    {
      var j :| 0 <= j < |lv| && lv[j] == y;
      assert j >= 1;
    }
  }

  // ----- Insert -----

  /** Nothing in the list compares equal to the key. */
  ghost predicate Absent(nodes: seq<Node>, lv: seq<nat>, k: Key) {
    forall y :: y in lv && y != 0 && y < |nodes| ==> nodes[y].key != k
  }

  ghost predicate PrevOk(s: State, prev: seq<nat>, k: Key, lo: nat, hi: nat) {
    && |prev| == KMaxHeight == |s.levels|
    && forall l :: lo <= l < hi && l < KMaxHeight ==> IsPred(s.nodes, s.levels[l], prev[l], k)
  }

  ghost predicate WriterOk(s: State) {
    match s.writer
    case Idle => true
    case Finding(k, x, level, prev) =>
      && level < s.maxHeight <= KMaxHeight == |s.levels|
      && x in s.levels[level] && x < |s.nodes| && Precedes(s.nodes, x, k)
      && Absent(s.nodes, s.levels[0], k)
      && PrevOk(s, prev, k, level + 1, s.maxHeight)
    case Found(k, prev) =>
      && |s.levels| == KMaxHeight
      && Absent(s.nodes, s.levels[0], k)
      && PrevOk(s, prev, k, 0, s.maxHeight)
    case Linking(x, i, loaded, prev) =>
      && |s.levels| == KMaxHeight
      && 0 < x < |s.nodes|
      && i < |s.nodes[x].next| <= s.maxHeight <= KMaxHeight
      && (forall l :: 0 <= l < KMaxHeight ==> (x in s.levels[l] <==> l < i))
      && PrevOk(s, prev, s.nodes[x].key, i, |s.nodes[x].next|)
      && (loaded ==>
            prev[i] < |s.nodes| && i < |s.nodes[prev[i]].next| && s.nodes[x].next[i] == s.nodes[prev[i]].next[i])
  }

  /** Insert(key) starts: FindGreaterOrEqual from the head at the current height. */
  ghost predicate BeginStep(s: State, k: Key, s': State) {
    && s.writer.Idle? && s.levels != [] && Absent(s.nodes, s.levels[0], k) && s.maxHeight >= 1
    && s' == s.(writer := Finding(k, 0, s.maxHeight - 1, seq(KMaxHeight, l => 0)))
  }

  /** One load of the writer's own search. */
  ghost predicate FindStep(s: State, s': State) {
    && s.writer.Finding?
    && var w := s.writer;
    && w.x < |s.nodes| && w.level < |s.nodes[w.x].next| && w.level < |w.prev|
    && var next := s.nodes[w.x].next[w.level];
    && (next.To? ==> next.p < |s.nodes|)
    && s' == s.(writer :=
         if next.To? && s.nodes[next.p].key < w.key then Finding(w.key, next.p, w.level, w.prev)
         else if w.level > 0 then Finding(w.key, w.x, w.level - 1, w.prev[w.level := w.x])
         else Found(w.key, w.prev[0 := w.x]))
  }

  /** RandomHeight, the store to max_height_ if it grows, and NewNode; the links of
      the new node hold whatever was in memory. */
  ghost predicate AllocateStep(s: State, garbage: seq<Link>, s': State) {
    && s.writer.Found? && 1 <= |garbage| <= KMaxHeight && |s.writer.prev| == KMaxHeight
    && var h := |garbage|;
    && s' == s.(nodes := s.nodes + [Node(s.writer.key, garbage)],
                maxHeight := if h > s.maxHeight then h else s.maxHeight,
                writer := Linking(|s.nodes|, 0, false,
                                  seq(KMaxHeight, l requires 0 <= l < KMaxHeight => if s.maxHeight <= l < h then 0
                                      else s.writer.prev[l])))
  }

  /** x->NoBarrier_SetNext(i, prev[i]->NoBarrier_Next(i)). */
  ghost predicate LoadStep(s: State, s': State) {
    && s.writer.Linking? && !s.writer.loaded
    && var w := s.writer;
    && w.x < |s.nodes| && w.i < |s.nodes[w.x].next| && w.i < |w.prev| && w.prev[w.i] < |s.nodes| &&
       w.i < |s.nodes[w.prev[w.i]].next|
    && s' == s.(nodes := SetNext(s.nodes, w.x, w.i, s.nodes[w.prev[w.i]].next[w.i]), writer := w.(loaded := true))
  }

  ghost function InsertAfter(lv: seq<nat>, p: nat, x: nat): seq<nat> {
    if lv == [] then []
    else if lv[0] == p then [p, x] + lv[1..]
    else [lv[0]] + InsertAfter(lv[1..], p, x)
  }

  /** prev[i]->SetNext(i, x): publishes the node at level i. */
  ghost predicate PublishStep(s: State, s': State) {
    && s.writer.Linking? && s.writer.loaded
    && var w := s.writer;
    && w.x < |s.nodes| && w.i < |s.nodes[w.x].next| && w.i < |w.prev| && w.prev[w.i] < |s.nodes| &&
       w.i < |s.nodes[w.prev[w.i]].next|
    && w.i < |s.levels|
    && s' == s.(nodes := SetNext(s.nodes, w.prev[w.i], w.i, To(w.x)),
                levels := s.levels[w.i := InsertAfter(s.levels[w.i], w.prev[w.i], w.x)],
                writer := if w.i + 1 < |s.nodes[w.x].next| then Linking(w.x, w.i + 1, false, w.prev) else Idle)
  }

  datatype Step = Begin(k: Key) | Find | Allocate(garbage: seq<Link>) | Load | Publish
                | StartSearch(id: nat, q: Query) | Search(id: nat)

  ghost predicate Next(s: State, a: Step, s': State) {
    match a
    case Begin(k) => BeginStep(s, k, s')
    case Find => FindStep(s, s')
    case Allocate(garbage) => AllocateStep(s, garbage, s')
    case Load => LoadStep(s, s')
    case Publish => PublishStep(s, s')
    case StartSearch(id, q) => s.maxHeight >= 1 &&
    s' == s.(readers := s.readers[id := Searching(q, 0, s.maxHeight - 1)])
    case Search(id) =>
      && id in s.readers && id in s'.readers
      && ReaderStep(s.nodes, s.readers[id], s'.readers[id])
      && s' == s.(readers := s.readers[id := s'.readers[id]])
  }

  ghost predicate Init(s: State) {
    s == State([Node(0.0, seq(KMaxHeight, l => Nil))], 1, Idle, map[], seq(KMaxHeight, l => [0]))
  }

  ghost predicate Inv(s: State) {
    && Lists(s)
    && WriterOk(s)
    && forall id :: id in s.readers ==> ReaderOk(s, s.readers[id])
  }

  // ----- every step keeps the invariant -----

  /** Nodes kept their keys and heights, and their links at levels they are in. */
  ghost predicate Agrees(s: State, nodes': seq<Node>) {
    && |s.nodes| <= |nodes'|
    && (forall y :: 0 <= y < |s.nodes| ==> nodes'[y].key == s.nodes[y].key && |nodes'[y].next| == |s.nodes[y].next|)
    && (forall l, i ::
          0 <= l < |s.levels| && 0 <= i < |s.levels[l]| && s.levels[l][i] < |s.nodes| &&
          l < |s.nodes[s.levels[l][i]].next| ==>
            nodes'[s.levels[l][i]].next[l] == s.nodes[s.levels[l][i]].next[l])
  }

  lemma {:induction false} ListsFrame(s: State, nodes': seq<Node>, h: nat, w: Writer)
    requires Lists(s) && Agrees(s, nodes') && s.maxHeight <= h <= KMaxHeight
    ensures Lists(s.(nodes := nodes', maxHeight := h, writer := w))
  {
    var s' := s.(nodes := nodes', maxHeight := h, writer := w);
    forall l | 0 <= l < KMaxHeight ensures Chain(nodes', l, s.levels[l]) && Ascends(nodes', s.levels[l]) {
      assert Chain(s.nodes, l, s.levels[l]) && Ascends(s.nodes, s.levels[l]);
    }
    forall l | 0 <= l < KMaxHeight - 1 ensures Thins(s'.levels, l) { assert Thins(s.levels, l); }
  }

  lemma {:induction false} ReadersFrame(s: State, s': State)
    requires Lists(s) && forall id :: id in s.readers ==> ReaderOk(s, s.readers[id])
    requires s'.readers == s.readers && |s'.levels| == |s.levels| && |s.nodes| <= |s'.nodes|
    requires forall y :: 0 <= y < |s.nodes| ==> s'.nodes[y].key == s.nodes[y].key
    requires forall l, y :: 0 <= l < |s.levels| && y in s.levels[l] ==> y in s'.levels[l]
    ensures forall id :: id in s'.readers ==> ReaderOk(s', s'.readers[id])
  {
    forall id | id in s'.readers ensures ReaderOk(s', s'.readers[id]) { assert ReaderOk(s, s.readers[id]); }
  }

  lemma {:induction false} BeginKeeps(s: State, k: Key, s': State)
    requires Inv(s) && BeginStep(s, k, s')
    ensures Inv(s')
  {
    ListsFrame(s, s.nodes, s.maxHeight, s'.writer);
    assert Chain(s.nodes, s.maxHeight - 1, s.levels[s.maxHeight - 1]);
  }

  /** Where the writer's search stops moving right, it stands at the predecessor. */
  lemma {:induction false} StopsAtPred(s: State, k: Key, x: nat, level: nat)
    requires Lists(s) && level < KMaxHeight && x in s.levels[level] && x < |s.nodes| && Precedes(s.nodes, x, k)
    requires Absent(s.nodes, s.levels[0], k)
    ensures level < |s.nodes[x].next|
    ensures var next := s.nodes[x].next[level];
            if next.To? && next.p < |s.nodes| && s.nodes[next.p].key < k then next.p in s.levels[level]
            else IsPred(s.nodes, s.levels[level], x, k)
  {
    var lv := s.levels[level];
    assert Chain(s.nodes, level, lv) && Ascends(s.nodes, lv);
    var i :| 0 <= i < |lv| && lv[i] == x;
    if i + 1 < |lv| {
      assert lv[i + 1] in lv;
      DownToZero(s, level, lv[i + 1]);
      assert s.nodes[x].next[level] == To(lv[i + 1]);
      assert s.nodes[lv[i + 1]].key < k || s.nodes[lv[i + 1]].key > k;
    }
    if i + 1 == |lv| || s.nodes[lv[i + 1]].key > k {
      assert lv[i] == x;
      assert IsPred(s.nodes, lv, x, k);
    }
  }

  lemma {:induction false} FindKeeps(s: State, s': State)
    requires Inv(s) && FindStep(s, s')
    ensures Inv(s')
  {
    var w := s.writer;
    ListsFrame(s, s.nodes, s.maxHeight, s'.writer);
    StopsAtPred(s, w.key, w.x, w.level);
    if s'.writer.Finding? && w.level > 0 { assert Thins(s.levels, w.level - 1); }
    assert WriterOk(s');
    ReadersFrame(s, s');
  }

  lemma {:induction false} DownToZero(s: State, l: nat, y: nat)
    requires Lists(s) && l < KMaxHeight && y in s.levels[l]
    ensures y in s.levels[0]
  {
    if l > 0 {
      assert Thins(s.levels, l - 1);
      DownToZero(s, l - 1, y);
    }
  }

  lemma {:induction false} IsPredFrame(nodes: seq<Node>, nodes': seq<Node>, lv: seq<nat>, x: nat, k: Key)
    requires IsPred(nodes, lv, x, k) && |nodes| <= |nodes'|
    requires forall y :: 0 <= y < |nodes| ==> nodes'[y].key == nodes[y].key
    ensures IsPred(nodes', lv, x, k)
  {
    var i :| 0 <= i < |lv| && lv[i] == x && x < |nodes| && Precedes(nodes, x, k) &&
      (i + 1 < |lv| ==> lv[i + 1] < |nodes| && nodes[lv[i + 1]].key > k);
    assert lv[i] == x && Precedes(nodes', x, k);
  }

  lemma {:induction false} AllocateKeeps(s: State, garbage: seq<Link>, s': State)
    requires Inv(s) && AllocateStep(s, garbage, s')
    ensures Inv(s')
  {
    var k, prev' := s.writer.key, s'.writer.prev;
    ListsFrame(s, s'.nodes, s'.maxHeight, s'.writer);
    ReadersFrame(s, s');
    forall l | 0 <= l < KMaxHeight ensures |s.nodes| !in s'.levels[l] {
      assert Ascends(s.nodes, s.levels[l]);
    }
    forall l | 0 <= l < |garbage| ensures IsPred(s'.nodes, s'.levels[l], prev'[l], k) {
      if l < s.maxHeight {
        IsPredFrame(s.nodes, s'.nodes, s.levels[l], s.writer.prev[l], k);
      } else {
        assert s'.levels[l][0] == 0 && Precedes(s'.nodes, 0, k);
      }
    }
  }

  lemma {:induction false} LoadKeeps(s: State, s': State)
    requires Inv(s) && LoadStep(s, s')
    ensures Inv(s')
  {
    var w, nodes' := s.writer, s'.nodes;
    forall l, i | 0 <= l < |s.levels| && 0 <= i < |s.levels[l]| && s.levels[l][i] < |s.nodes| &&
    l < |s.nodes[s.levels[l][i]].next|
      ensures nodes'[s.levels[l][i]].next[l] == s.nodes[s.levels[l][i]].next[l]
    {
      assert s.levels[l][i] in s.levels[l];
    }
    ListsFrame(s, nodes', s.maxHeight, s'.writer);
    ReadersFrame(s, s');
    forall l | w.i <= l < |s.nodes[w.x].next| ensures IsPred(nodes', s.levels[l], w.prev[l], s.nodes[w.x].key) {
      IsPredFrame(s.nodes, nodes', s.levels[l], w.prev[l], s.nodes[w.x].key);
    }
    PredIsLinked(s, w.i, w.prev[w.i]);
    assert w.prev[w.i] != w.x;
  }

  lemma {:induction false} PredIsLinked(s: State, l: nat, x: nat)
    requires Lists(s) && l < KMaxHeight && x in s.levels[l]
    ensures x < |s.nodes| && l < |s.nodes[x].next|
  {
    assert Chain(s.nodes, l, s.levels[l]);
  }

  lemma {:induction false} InsertAfterIs(lv: seq<nat>, p: nat, x: nat, i: nat)
    requires i < |lv| && lv[i] == p && p !in lv[..i]
    ensures InsertAfter(lv, p, x) == lv[..i + 1] + [x] + lv[i + 1..]
  {
    if i > 0 {
      assert lv[0] == lv[..i][0];
      assert lv[1..][..i - 1] == lv[..i][1..];
      InsertAfterIs(lv[1..], p, x, i - 1);
      assert [lv[0]] + lv[1..][..i] == lv[..i + 1];
      assert lv[1..][i..] == lv[i + 1..];
    }
  }

  /** No node occurs twice in an ascending list. */
  lemma {:induction false} AscendsOnce(nodes: seq<Node>, lv: seq<nat>, i: nat)
    requires Ascends(nodes, lv) && i < |lv| && lv[0] == 0
    ensures forall j :: 0 <= j < |lv| && j != i ==> lv[j] != lv[i]
  {
    forall j | 0 <= j < |lv| && j != i ensures lv[j] != lv[i] {
      if 1 <= j < i {
        assert nodes[lv[j]].key < nodes[lv[i]].key;
      } else if 1 <= i < j {
        assert nodes[lv[i]].key < nodes[lv[j]].key;
      }
    }
  }

  ghost predicate Inserted(lv: seq<nat>, i: nat, x: nat, lv': seq<nat>) {
    && i < |lv| && |lv'| == |lv| + 1 && lv'[i + 1] == x
    && (forall j :: 0 <= j <= i ==> lv'[j] == lv[j])
    && (forall j :: i + 1 < j < |lv'| ==> lv'[j] == lv[j - 1])
  }

  lemma {:induction false} InsertAfterInserts(lv: seq<nat>, x: nat, i: nat)
    requires i < |lv| && forall j :: 0 <= j < |lv| && j != i ==> lv[j] != lv[i]
    ensures Inserted(lv, i, x, InsertAfter(lv, lv[i], x))
    ensures forall y :: y in InsertAfter(lv, lv[i], x) <==> y in lv || y == x
  {
    InsertAfterIs(lv, lv[i], x, i);
    assert lv == lv[..i + 1] + lv[i + 1..];
  }

  /** Redirecting the predecessor's link splices the new node into the list. */
  lemma {:induction false} Splice(nodes: seq<Node>, l: nat, lv: seq<nat>, p: nat, x: nat)
    requires Chain(nodes, l, lv) && Ascends(nodes, lv)
    requires 0 < x < |nodes| && l < |nodes[x].next| && x !in lv
    requires IsPred(nodes, lv, p, nodes[x].key) && p < |nodes| && l < |nodes[p].next| &&
             nodes[x].next[l] == nodes[p].next[l]
    ensures Chain(SetNext(nodes, p, l, To(x)), l, InsertAfter(lv, p, x))
    ensures Ascends(SetNext(nodes, p, l, To(x)), InsertAfter(lv, p, x))
    ensures forall y :: y in InsertAfter(lv, p, x) <==> y in lv || y == x
  {
    var k := nodes[x].key;
    var i :| 0 <= i < |lv| && lv[i] == p && Precedes(nodes, p, k) &&
        (i + 1 < |lv| ==> lv[i + 1] < |nodes| && nodes[lv[i + 1]].key > k);
    SpliceAt(nodes, l, lv, i, x);
  }

  lemma {:induction false} SpliceAt(nodes: seq<Node>, l: nat, lv: seq<nat>, i: nat, x: nat)
    requires Chain(nodes, l, lv) && Ascends(nodes, lv) && i < |lv|
    requires 0 < x < |nodes| && l < |nodes[x].next| && x !in lv && nodes[x].next[l] == nodes[lv[i]].next[l]
    requires Precedes(nodes, lv[i], nodes[x].key) && (i + 1 < |lv| ==> nodes[lv[i + 1]].key > nodes[x].key)
    ensures var lv' := InsertAfter(lv, lv[i], x);
            && Chain(SetNext(nodes, lv[i], l, To(x)), l, lv') && Ascends(SetNext(nodes, lv[i], l, To(x)), lv')
            && forall y :: y in lv' <==> y in lv || y == x
  {
    AscendsOnce(nodes, lv, i);
    InsertAfterInserts(lv, x, i);
    SplicedChain(nodes, l, lv, i, x, InsertAfter(lv, lv[i], x));
    SplicedAscends(nodes, SetNext(nodes, lv[i], l, To(x)), lv, i, x, InsertAfter(lv, lv[i], x));
  }

  lemma {:induction false} SplicedChain(nodes: seq<Node>, l: nat, lv: seq<nat>, i: nat, x: nat, lv': seq<nat>)
    requires Chain(nodes, l, lv) && i < |lv| && 0 < x < |nodes| && l < |nodes[x].next| && x !in lv
    requires nodes[x].next[l] == nodes[lv[i]].next[l]
    requires Inserted(lv, i, x, lv')
    requires forall j :: 0 <= j < |lv| && j != i ==> lv[j] != lv[i]
    ensures Chain(SetNext(nodes, lv[i], l, To(x)), l, lv')
  {
    var nodes' := SetNext(nodes, lv[i], l, To(x));
    assert lv[i] != x;
    forall j | 0 <= j < |lv'|
      ensures lv'[j] < |nodes'| && l < |nodes'[lv'[j]].next|
      ensures nodes'[lv'[j]].next[l] == if j + 1 < |lv'| then To(lv'[j + 1]) else Nil
    {
      if j > i + 1 {
        assert lv'[j] == lv[j - 1];
      }
    }
  }

  lemma {:induction false} SplicedAscends(nodes: seq<Node>, nodes': seq<Node>, lv: seq<nat>, i: nat, x: nat,
                                          lv': seq<nat>)
    requires Ascends(nodes, lv) && i < |lv| && 0 < x < |nodes|
    requires |nodes'| == |nodes| && forall y :: 0 <= y < |nodes| ==> nodes'[y].key == nodes[y].key
    requires Precedes(nodes, lv[i], nodes[x].key) && (i + 1 < |lv| ==> nodes[lv[i + 1]].key > nodes[x].key)
    requires lv[0] == 0
    requires Inserted(lv, i, x, lv')
    ensures Ascends(nodes', lv')
  {
    forall a | 1 <= a < |lv|
      ensures if a <= i then nodes[lv[a]].key < nodes[x].key else nodes[lv[a]].key > nodes[x].key
    {
      assert a < i ==> nodes[lv[a]].key < nodes[lv[i]].key;
      assert a > i + 1 ==> nodes[lv[i + 1]].key < nodes[lv[a]].key;
    }
    forall a, b | 1 <= a < b < |lv'| ensures nodes'[lv'[a]].key < nodes'[lv'[b]].key {
    }
  }

  /** The level the node was published at. */
  lemma {:induction false} PublishedLevel(s: State, s': State)
    requires Lists(s) && WriterOk(s) && PublishStep(s, s')
    ensures var i := s.writer.i;
            && Chain(s'.nodes, i, s'.levels[i]) && Ascends(s'.nodes, s'.levels[i])
            && forall y :: y in s'.levels[i] <==> y in s.levels[i] || y == s.writer.x
  {
    var w := s.writer;
    assert Chain(s.nodes, w.i, s.levels[w.i]) && Ascends(s.nodes, s.levels[w.i]);
    assert IsPred(s.nodes, s.levels[w.i], w.prev[w.i], s.nodes[w.x].key);
    Splice(s.nodes, w.i, s.levels[w.i], w.prev[w.i], w.x);
  }

  /** The other levels. */
  lemma {:induction false} OtherLevels(s: State, s': State, l: nat)
    requires Lists(s) && PublishStep(s, s') && l < KMaxHeight && l != s.writer.i
    ensures s'.levels[l] == s.levels[l] && Chain(s'.nodes, l, s'.levels[l]) && Ascends(s'.nodes, s'.levels[l])
  {
    assert Chain(s.nodes, l, s.levels[l]) && Ascends(s.nodes, s.levels[l]);
  }

  lemma {:induction false} PublishKeepsLists(s: State, s': State)
    requires Lists(s) && WriterOk(s) && PublishStep(s, s')
    ensures Lists(s')
    ensures forall l, y :: 0 <= l < KMaxHeight ==>
              (y in s'.levels[l] <==> y in s.levels[l] || (l == s.writer.i && y == s.writer.x))
  {
    var w := s.writer;
    PublishedLevel(s, s');
    forall l | 0 <= l < KMaxHeight
      ensures Chain(s'.nodes, l, s'.levels[l]) && Ascends(s'.nodes, s'.levels[l])
      ensures forall y :: y in s'.levels[l] <==> y in s.levels[l] || (l == w.i && y == w.x)
    {
      if l != w.i { OtherLevels(s, s', l); }
    }
    forall l | 0 <= l < KMaxHeight - 1 ensures Thins(s'.levels, l) {
      assert Thins(s.levels, l);
    }
  }

  lemma {:induction false} PublishKeeps(s: State, s': State)
    requires Inv(s) && PublishStep(s, s')
    ensures Inv(s')
  {
    var w := s.writer;
    PublishKeepsLists(s, s');
    ReadersFrame(s, s');
    if s'.writer.Linking? {
      forall l | w.i + 1 <= l < |s.nodes[w.x].next|
        ensures IsPred(s'.nodes, s'.levels[l], w.prev[l], s.nodes[w.x].key)
      {
        IsPredFrame(s.nodes, s'.nodes, s.levels[l], w.prev[l], s.nodes[w.x].key);
      }
    }
  }

  lemma {:induction false} SearchKeeps(s: State, id: nat, r: Reader)
    requires Inv(s) && ReaderOk(s, r)
    ensures Inv(s.(readers := s.readers[id := r]))
  {
    var s' := s.(readers := s.readers[id := r]);
    forall l | 0 <= l < KMaxHeight - 1 ensures Thins(s'.levels, l) { assert Thins(s.levels, l); }
    forall j | j in s'.readers ensures ReaderOk(s', s'.readers[j]) {
      assert j != id ==> ReaderOk(s, s.readers[j]);
    }
  }

  lemma {:induction false} NextKeeps(s: State, a: Step, s': State)
    requires Inv(s) && Next(s, a, s')
    ensures Inv(s')
  {
    match a
    case Begin(k) => BeginKeeps(s, k, s');
    case Find => FindKeeps(s, s');
    case Allocate(garbage) => AllocateKeeps(s, garbage, s');
    case Load => LoadKeeps(s, s');
    case Publish => PublishKeeps(s, s');
    case StartSearch(id, q) =>
      HeadInLevel(s, s.maxHeight - 1);
      SearchKeeps(s, id, Searching(q, 0, s.maxHeight - 1));
    case Search(id) =>
      StepLands(s, s.readers[id], s'.readers[id]);
      SearchKeeps(s, id, s'.readers[id]);
  }

  lemma {:induction false} HeadInLevel(s: State, l: nat)
    requires Lists(s) && l < KMaxHeight
    ensures 0 in s.levels[l] && 0 < |s.nodes|
  {
    assert Chain(s.nodes, l, s.levels[l]);
  }

  lemma {:induction false} InitInv(s: State)
    requires Init(s)
    ensures Inv(s)
  {
    forall l | 0 <= l < KMaxHeight ensures Chain(s.nodes, l, s.levels[l]) && Ascends(s.nodes, s.levels[l]) {}
    forall l | 0 <= l < KMaxHeight - 1 ensures Thins(s.levels, l) {}
  }

  // ----- runs -----

  ghost predicate IsRun(states: seq<State>, steps: seq<Step>) {
    && |states| == |steps| + 1
    && Init(states[0])
    && forall i :: 0 <= i < |steps| ==> Next(states[i], steps[i], states[i + 1])
  }

  lemma {:induction false} RunInv(states: seq<State>, steps: seq<Step>, n: nat)
    requires IsRun(states, steps) && n < |states|
    ensures Inv(states[n])
  {
    if n == 0 {
      InitInv(states[0]);
    } else {
      RunInv(states, steps, n - 1);
      NextKeeps(states[n - 1], steps[n - 1], states[n]);
    }
  }

  /** Between any two stores of any run, the links of each level spell out an
      ascending list, and each level thins the one below. */
  lemma {:induction false} LevelsAlwaysSorted(states: seq<State>, steps: seq<Step>, n: nat, l: nat)
    requires IsRun(states, steps) && n < |states| && l < KMaxHeight
    ensures |states[n].levels| == KMaxHeight
    ensures Chain(states[n].nodes, l, states[n].levels[l]) && Ascends(states[n].nodes, states[n].levels[l])
    ensures l + 1 < KMaxHeight ==> Thins(states[n].levels, l)
  {
    RunInv(states, steps, n);
  }

  /** A search interleaved with any number of insert steps, started at any earlier
      height, returns the exact answer for the level-0 list at its last load. */
  lemma {:induction false} SearchesLinearize(states: seq<State>, steps: seq<Step>, n: nat, id: nat)
    requires IsRun(states, steps) && n < |steps| && steps[n] == Search(id)
    requires id in states[n + 1].readers && states[n + 1].readers[id].Returned?
    ensures states[n].levels != []
    ensures var r := states[n + 1].readers[id]; Exact(states[n].nodes, states[n].levels[0], r.q, r.result)
  {
    RunInv(states, steps, n);
    assert Next(states[n], steps[n], states[n + 1]);
    ReturnsExactly(states[n], states[n].readers[id], states[n + 1].readers[id]);
  }

  /** A reader can find the key. */
  ghost predicate Holds(s: State, k: Key) {
    s.levels != [] && exists y :: y in s.levels[0] && 0 < y < |s.nodes| && s.nodes[y].key == k
  }

  /** The step links a new node at level 0. */
  ghost predicate Lands(s: State, a: Step, k: Key) {
    a.Publish? && s.writer.Linking? && s.writer.i == 0 && s.writer.x < |s.nodes| && s.nodes[s.writer.x].key == k
  }

  lemma {:induction false} StepAtLevelZero(s: State, a: Step, s': State)
    requires Inv(s) && Next(s, a, s')
    ensures |s.nodes| <= |s'.nodes| && forall y :: 0 <= y < |s.nodes| ==> s'.nodes[y].key == s.nodes[y].key
    ensures |s'.levels| == |s.levels| == KMaxHeight
    ensures forall y :: y in s'.levels[0] <==> y in s.levels[0] || (a.Publish? && s.writer.i == 0 && y == s.writer.x)
  {
    if a.Publish? { PublishKeepsLists(s, s'); }
  }

  /** The keys a reader can find change at one step of an insert only, the store that
      links the node at level 0, and that step adds exactly the new key. */
  lemma {:induction false} InsertTakesEffectOnce(states: seq<State>, steps: seq<Step>, n: nat, k: Key)
    requires IsRun(states, steps) && n < |steps|
    ensures Holds(states[n + 1], k) <==> Holds(states[n], k) || Lands(states[n], steps[n], k)
  {
    var s, a, s' := states[n], steps[n], states[n + 1];
    RunInv(states, steps, n);
    assert Next(s, a, s');
    StepAtLevelZero(s, a, s');
    forall y | y in s.levels[0] ensures y < |s.nodes| { PredIsLinked(s, 0, y); }
    if Holds(s, k) {
      var y :| y in s.levels[0] && 0 < y < |s.nodes| && s.nodes[y].key == k;
      assert y in s'.levels[0] && s'.nodes[y].key == k;
    }
    if Lands(s, a, k) {
      assert s.writer.x in s'.levels[0] && s'.nodes[s.writer.x].key == k;
    }
  }
}
