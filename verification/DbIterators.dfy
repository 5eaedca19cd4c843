/** DBIter (db/db_iter.cc): a cursor over the user keys visible at a sequence number,
    driven forwards and backwards over the internal entries. */
module DbIterators {
  import opened Keys
  import opened Versions
  import opened Cursors
  import Mergers

  // ----- what the iterator shows -----

  predicate Seen(e: Entry, s: nat) { e.key.sequence <= s }

  /** Entry `i` is the newest visible version of its key, and a value. */
  ghost predicate Live(es: seq<Entry>, s: nat, i: nat) {
    && i < |es| && es[i].key.kind.Value? && Seen(es[i], s)
    && forall j :: 0 <= j < i && es[j].key.user == es[i].key.user ==> !Seen(es[j], s)
  }

  /** The live entries among the first `n`, in order. */
  ghost function LivesUpTo(es: seq<Entry>, s: nat, n: nat): (r: seq<nat>)
    requires n <= |es|
    ensures forall c :: 0 <= c < |r| ==> r[c] < n
  {
    if n == 0 then []
    else if Live(es, s, n - 1) then LivesUpTo(es, s, n - 1) + [n - 1]
    else LivesUpTo(es, s, n - 1)
  }

  ghost function Lives(es: seq<Entry>, s: nat): seq<nat> { LivesUpTo(es, s, |es|) }

  /** The entries shown, in order. */
  ghost function Shown(es: seq<Entry>, s: nat): seq<Entry> {
    seq(|Lives(es, s)|, c requires 0 <= c < |Lives(es, s)| => es[Lives(es, s)[c]])
  }

  lemma {:induction false} LivesAre(es: seq<Entry>, s: nat, n: nat)
    requires n <= |es|
    ensures forall c :: 0 <= c < |LivesUpTo(es, s, n)| ==>
              LivesUpTo(es, s, n)[c] < n && Live(es, s, LivesUpTo(es, s, n)[c])
    ensures forall c, d :: 0 <= c < d < |LivesUpTo(es, s, n)| ==> LivesUpTo(es, s, n)[c] < LivesUpTo(es, s, n)[d]
    ensures forall i :: 0 <= i < n && Live(es, s, i) ==> i in LivesUpTo(es, s, n)
  {
    if n > 0 { LivesAre(es, s, n - 1); }
  }

  /** Live entries have ascending user keys. */
  lemma {:induction false} LiveAscends(es: seq<Entry>, s: nat, i: nat, j: nat)
    requires Sorted(es) && Live(es, s, i) && Live(es, s, j) && i < j
    ensures es[i].key.user < es[j].key.user
  {
    assert Before(es[i].key, es[j].key);
  }

  lemma {:induction false} ShownAre(es: seq<Entry>, s: nat, e: Entry)
    ensures e in Shown(es, s) <==> exists i: nat :: Live(es, s, i) && es[i] == e
  {
    var ls := Lives(es, s);
    LivesAre(es, s, |es|);
    if e in Shown(es, s) {
      var c :| 0 <= c < |Shown(es, s)| && Shown(es, s)[c] == e;
      assert Live(es, s, ls[c]) && es[ls[c]] == e;
    }
    if i: nat :| Live(es, s, i) && es[i] == e {
      var c :| 0 <= c < |ls| && ls[c] == i;
      assert Shown(es, s)[c] == e;
    }
  }

  /** The pairs shown are those of a sorted map: keys ascend, and a pair is shown
      exactly when a read of its key at `s` finds its value. */
  lemma {:induction false} ShowsTheMap(es: seq<Entry>, s: nat, k: UserKey, v: Bytes)
    requires Versioned(es)
    ensures forall c, d :: 0 <= c < d < |Shown(es, s)| ==> Shown(es, s)[c].key.user < Shown(es, s)[d].key.user
    ensures (exists e :: e in Shown(es, s) && e.key.user == k && e.value == v) <==>
              Answers(Elements(es), k, s, Found(v))
  {
    ShownAscends(es, s);
    if Answers(Elements(es), k, s, Found(v)) {
      var e :| IsNewest(Elements(es), k, s, e) && e.key.kind.Value? && e.value == v;
      var i :| 0 <= i < |es| && es[i] == e;
      NewestIsLive(es, s, i);
      ShownAre(es, s, e);
    }
    if e :| e in Shown(es, s) && e.key.user == k && e.value == v {
      ShownAre(es, s, e);
      var i: nat :| Live(es, s, i) && es[i] == e;
      LiveIsNewest(es, s, i);
    }
  }

  lemma {:induction false} ShownAscends(es: seq<Entry>, s: nat)
    requires Versioned(es)
    ensures forall c, d :: 0 <= c < d < |Shown(es, s)| ==> Shown(es, s)[c].key.user < Shown(es, s)[d].key.user
  {
    var ls := Lives(es, s);
    LivesAre(es, s, |es|);
    VersionedIsSorted(es);
    forall c, d | 0 <= c < d < |ls|
      ensures Shown(es, s)[c].key.user < Shown(es, s)[d].key.user
    {
      LiveAscends(es, s, ls[c], ls[d]);
    }
  }

  lemma {:induction false} VersionedIsSorted(es: seq<Entry>)
    requires Versioned(es)
    ensures Sorted(es)
  {
    forall i, j | 0 <= i < j < |es| ensures Before(es[i].key, es[j].key) { assert Precedes(es[i].key, es[j].key); }
  }

  lemma {:induction false} LiveIsNewest(es: seq<Entry>, s: nat, i: nat)
    requires Versioned(es) && Live(es, s, i)
    ensures IsNewest(Elements(es), es[i].key.user, s, es[i])
  {
    forall x | x in Elements(es) && Visible(x, es[i].key.user, s) && x != es[i]
      ensures x.key.sequence < es[i].key.sequence
    {
      var j :| 0 <= j < |es| && es[j] == x;
      assert i < j;
      assert Precedes(es[i].key, es[j].key);
    }
  }

  lemma {:induction false} NewestIsLive(es: seq<Entry>, s: nat, i: nat)
    requires Versioned(es) && i < |es| && es[i].key.kind.Value? && IsNewest(Elements(es), es[i].key.user, s, es[i])
    ensures Live(es, s, i)
  {
    forall j | 0 <= j < i && es[j].key.user == es[i].key.user ensures !Seen(es[j], s) {
      assert Precedes(es[j].key, es[i].key) && es[j] in Elements(es);
    }
  }

  // ----- counting live entries -----

  lemma {:induction false} LivesPrefix(es: seq<Entry>, s: nat, n: nat, m: nat)
    requires n <= m <= |es|
    ensures LivesUpTo(es, s, n) <= LivesUpTo(es, s, m)
  {
    if n < m { LivesPrefix(es, s, n, m - 1); }
  }

  /** The place of a live entry among all live entries. */
  lemma {:induction false} LiveAt(es: seq<Entry>, s: nat, i: nat)
    requires Live(es, s, i)
    ensures |LivesUpTo(es, s, i)| < |Lives(es, s)| && Lives(es, s)[|LivesUpTo(es, s, i)|] == i
    ensures |LivesUpTo(es, s, i + 1)| == |LivesUpTo(es, s, i)| + 1
  {
    LivesPrefix(es, s, i + 1, |es|);
  }

  lemma {:induction false} NoneBetween(es: seq<Entry>, s: nat, a: nat, b: nat)
    requires a <= b <= |es| && forall i :: a <= i < b ==> !Live(es, s, i)
    ensures LivesUpTo(es, s, a) == LivesUpTo(es, s, b)
  {
    if a < b { NoneBetween(es, s, a, b - 1); }
  }

  lemma {:induction false} LivesOrder(es: seq<Entry>, s: nat, c: nat)
    requires c < |Lives(es, s)|
    ensures Live(es, s, Lives(es, s)[c]) && |LivesUpTo(es, s, Lives(es, s)[c])| == c
  {
    LivesAre(es, s, |es|);
    var i := Lives(es, s)[c];
    LiveAt(es, s, i);
    var d := |LivesUpTo(es, s, i)|;
    assert Lives(es, s)[d] == Lives(es, s)[c];
  }

  datatype Saved = Nothing | Key(k: UserKey)
  datatype Direction = Forward | Reverse

  /** Nothing seen lies between `p` and the entries of `k`; past the end stands for
      before the start. */
  ghost predicate Behind(es: seq<Entry>, s: nat, p: nat, k: UserKey) {
    && (p < |es| ==> es[p].key.user < k)
    && forall j :: 0 <= j < |es| && (p < |es| ==> p < j) && es[j].key.user < k ==> !Seen(es[j], s)
  }

  lemma {:induction false} UsersAscend(es: seq<Entry>)
    requires Sorted(es)
    ensures forall i, j :: 0 <= i <= j < |es| ==> es[i].key.user <= es[j].key.user
  {
    forall i, j | 0 <= i < j < |es| ensures es[i].key.user <= es[j].key.user { assert Before(es[i].key, es[j].key); }
  }

  /** No live entry from `from` on, before `p`; what is skipped holds none either. */
  ghost predicate SkipOk(es: seq<Entry>, s: nat, from: nat, p: nat, skipping: bool, skip: Saved) {
    && p <= |es|
    && (forall i :: from <= i < p ==> !Live(es, s, i))
    && (skipping ==> skip.Key?)
    && (skipping ==> forall i :: p <= i < |es| && from <= i && es[i].key.user <= skip.k ==> !Live(es, s, i))
    && (forall j, i :: 0 <= j < p <= i < |es| && es[j].key.user == es[i].key.user && Seen(es[j], s)
          ==> skipping && es[i].key.user <= skip.k)
    && (forall i :: p <= i < from && i < |es| && Seen(es[i], s) ==> skipping && es[i].key.user == skip.k)
  }

  lemma {:induction false} SkipDeletion(es: seq<Entry>, s: nat, from: nat, p: nat, skipping: bool, skip: Saved)
    requires Sorted(es) && p < |es| && SkipOk(es, s, from, p, skipping, skip)
    requires Seen(es[p], s) && es[p].key.kind.Deletion?
    ensures SkipOk(es, s, from, p + 1, true, Key(es[p].key.user))
  {
    UsersAscend(es);
  }

  lemma {:induction false} SkipHidden(es: seq<Entry>, s: nat, from: nat, p: nat, skip: Saved)
    requires p < |es| && SkipOk(es, s, from, p, true, skip) && es[p].key.user <= skip.k
    ensures SkipOk(es, s, from, p + 1, true, skip)
  {
  }

  lemma {:induction false} SkipUnseen(es: seq<Entry>, s: nat, from: nat, p: nat, skipping: bool, skip: Saved)
    requires p < |es| && SkipOk(es, s, from, p, skipping, skip) && !Seen(es[p], s)
    ensures SkipOk(es, s, from, p + 1, skipping, skip)
  {
  }

  lemma {:induction false} SkipParts(es: seq<Entry>, s: nat, from: nat, p: nat, skipping: bool, skip: Saved)
    requires SkipOk(es, s, from, p, skipping, skip)
    ensures (skipping ==> skip.Key?) && forall i :: from <= i < p ==> !Live(es, s, i)
  {
  }

  /** A value that is seen and not skipped is the next live entry. */
  lemma {:induction false} FoundLive(es: seq<Entry>, s: nat, from: nat, p: nat, skipping: bool, skip: Saved)
    requires p < |es| && SkipOk(es, s, from, p, skipping, skip)
    requires Seen(es[p], s) && es[p].key.kind.Value? && !(skipping && es[p].key.user <= skip.k)
    ensures from <= p && Live(es, s, p)
  {
  }

  /** Going back over [lo, hi): `low` is the lowest entry seen there, if any, and
      nothing above it is live. */
  ghost predicate BackOk(es: seq<Entry>, s: nat, hi: nat, lo: nat, low: int, kind: ValueType) {
    && lo <= hi <= |es|
    && (if low < 0 then kind.Deletion? && forall j :: lo <= j < hi ==> !Seen(es[j], s)
        else
          && lo <= low < hi && Seen(es[low], s) && kind == es[low].key.kind
          && (forall j :: lo <= j < low ==> !Seen(es[j], s))
          && (forall j :: low < j < hi ==> !Live(es, s, j)))
  }

  lemma {:induction false} BackStep(es: seq<Entry>, s: nat, hi: nat, lo: nat, low: int, kind: ValueType)
    requires Sorted(es) && 0 < lo && BackOk(es, s, hi, lo, low, kind)
    requires Seen(es[lo - 1], s) ==> kind.Deletion? || es[lo - 1].key.user >= es[low].key.user
    ensures if Seen(es[lo - 1], s) then BackOk(es, s, hi, lo - 1, lo - 1, es[lo - 1].key.kind)
            else BackOk(es, s, hi, lo - 1, low, kind)
  {
    if Seen(es[lo - 1], s) && low >= 0 {
      assert Before(es[lo - 1].key, es[low].key);
    }
  }

  /** The lowest entry seen is live once the entry below has a smaller user key, or
      there is none. */
  lemma {:induction false} BackStop(es: seq<Entry>, s: nat, hi: nat, lo: nat, low: int, kind: ValueType)
    requires Sorted(es) && BackOk(es, s, hi, lo, low, kind) && kind.Value?
    requires lo > 0 ==> es[lo - 1].key.user < es[low].key.user
    ensures Live(es, s, low) && Behind(es, s, if lo == 0 then |es| else lo - 1, es[low].key.user)
    ensures forall j :: low < j < hi ==> !Live(es, s, j)
  {
    UsersAscend(es);
  }

  lemma {:induction false} BackNothing(es: seq<Entry>, s: nat, hi: nat, low: int)
    requires BackOk(es, s, hi, 0, low, Deletion)
    ensures forall j :: 0 <= j < hi ==> !Live(es, s, j)
  {
  }

  class DBIter {
    /** The internal iterator, over every version of every key. */
    const iter: Mergers.MergingIterator
    ghost const es: seq<Entry>
    const sequence: nat
    var direction: Direction
    var valid: bool
    var savedKey: Saved
    var savedValue: Bytes
    /** Which of the shown entries the iterator stands at; their number if none. */
    ghost var cur: nat

    ghost predicate Inner()
      reads iter
    {
      iter.Ok() && iter.all == es && Sorted(es) && iter.cur <= |es|
    }

    ghost predicate Ok()
      reads this, iter
    {
      && Inner()
      && cur <= |Lives(es, sequence)|
      && (valid <==> cur < |Lives(es, sequence)|)
      && (valid && direction.Forward? ==> iter.cur == Lives(es, sequence)[cur])
      && (valid && direction.Reverse? ==>
            var e := es[Lives(es, sequence)[cur]];
            savedKey == Key(e.key.user) && savedValue == e.value && Behind(es, sequence, iter.cur, e.key.user))
    }

    constructor (iter: Mergers.MergingIterator, s: nat)
      requires iter.Ok()
      ensures this.iter == iter && es == iter.all && this.sequence == s
      ensures Ok() && !valid && cur == |Lives(es, s)|
    {
      this.iter, this.es, this.sequence := iter, iter.all, s;
      this.direction, this.valid, this.savedKey, this.savedValue := Forward, false, Nothing, [];
      this.cur := |Lives(iter.all, s)|;
      new;
    }

    /** Valid(), key() and value() show the entry the cursor stands at. */
    method Valid() returns (b: bool)
      requires Ok()
      ensures b <==> cur < |Shown(es, sequence)|
    {
      b := valid;
    }

    method CurrentKey() returns (k: UserKey)
      requires Ok() && valid
      ensures cur < |Shown(es, sequence)| && k == Shown(es, sequence)[cur].key.user
    {
      var _, e := iter.Current();
      k := if direction.Forward? then e.key.user else savedKey.k;
    }

    method CurrentValue() returns (v: Bytes)
      requires Ok() && valid
      ensures cur < |Shown(es, sequence)| && v == Shown(es, sequence)[cur].value
    {
      var _, e := iter.Current();
      v := if direction.Forward? then e.value else savedValue;
    }

    /** FindNextUserEntry: on to the first live entry from `from` on. */
    method FindNextUserEntry(skipping0: bool, skip0: Saved, ghost from: nat)
      requires Inner() && iter.cur < |es| && direction.Forward?
      requires SkipOk(es, sequence, from, iter.cur, skipping0, skip0)
      modifies this, iter
      ensures Inner() && direction.Forward? && cur == old(cur)
      ensures valid ==>
                from <= iter.cur && Live(es, sequence, iter.cur) &&
                forall i :: from <= i < iter.cur ==> !Live(es, sequence, i)
      ensures !valid ==> forall i :: from <= i < |es| ==> !Live(es, sequence, i)
    {
      hide Mergers.MergingIterator.Ok, Sorted, Live, SkipOk;
      var skipping, skip := skipping0, skip0;
      var found, e := iter.Current();
      while found
        invariant Inner() && direction.Forward? && cur == old(cur)
        invariant (found <==> iter.cur < |es|) && (found ==> e == es[iter.cur])
        invariant SkipOk(es, sequence, from, iter.cur, skipping, skip)
        decreases |es| - iter.cur
      {
        SkipParts(es, sequence, from, iter.cur, skipping, skip);
        if Seen(e, sequence) {
          if e.key.kind.Deletion? {
            SkipDeletion(es, sequence, from, iter.cur, skipping, skip);
            skip, skipping := Key(e.key.user), true;
          } else if skipping && e.key.user <= skip.k {
            SkipHidden(es, sequence, from, iter.cur, skip);
          } else {
            FoundLive(es, sequence, from, iter.cur, skipping, skip);
            valid, savedKey := true, Nothing;
            return;
          }
        } else {
          SkipUnseen(es, sequence, from, iter.cur, skipping, skip);
        }
        iter.Next();
        found, e := iter.Current();
      }
      SkipParts(es, sequence, from, iter.cur, skipping, skip);
      savedKey, valid := Nothing, false;
    }

    /** FindPrevUserEntry: back to the last live entry at or before the position. */
    method FindPrevUserEntry(ghost hi: nat) returns (ghost c: int)
      requires Inner() && direction.Reverse?
      requires hi == if iter.cur < |es| then iter.cur + 1 else 0
      modifies this, iter
      ensures Inner() && cur == old(cur)
      ensures valid ==>
                && direction.Reverse? && 0 <= c < hi && Live(es, sequence, c)
                && (forall j :: c < j < hi ==> !Live(es, sequence, j))
                && savedKey == Key(es[c].key.user) && savedValue == es[c].value &&
                   Behind(es, sequence, iter.cur, es[c].key.user)
      ensures !valid ==> direction.Forward? && forall j :: 0 <= j < hi ==> !Live(es, sequence, j)
    {
      hide Mergers.MergingIterator.Ok, Sorted, Live, Behind;
      var valueType := Deletion;
      c := -1;
      ghost var lo := hi;
      var found, e := iter.Current();
      if found {
        while found
          invariant Inner() && cur == old(cur) && direction.Reverse?
          invariant (found <==> iter.cur < |es|) && (found ==> e == es[iter.cur])
          invariant iter.cur == if lo == 0 then |es| else lo - 1
          invariant BackOk(es, sequence, hi, lo, c, valueType)
          invariant valueType.Value? ==> savedKey == Key(es[c].key.user) && savedValue == es[c].value
          decreases lo
        {
          if Seen(e, sequence) {
            if !valueType.Deletion? && e.key.user < savedKey.k {
              break;
            }
            BackStep(es, sequence, hi, lo, c, valueType);
            valueType := e.key.kind;
            c := iter.cur;
            if valueType.Deletion? {
              savedKey, savedValue := Nothing, [];
            } else {
              savedKey, savedValue := Key(e.key.user), e.value;
            }
          } else {
            BackStep(es, sequence, hi, lo, c, valueType);
          }
          iter.Prev();
          found, e := iter.Current();
          lo := lo - 1;
        }
      }
      if valueType.Deletion? {
        BackNothing(es, sequence, hi, c);
        valid, savedKey, savedValue, direction := false, Nothing, [], Forward;
      } else {
        BackStop(es, sequence, hi, lo, c, valueType);
        valid := true;
      }
    }
  
    /** Sets the cursor after a forward search from `from`. */
    ghost method SettleForward(from: nat)
      requires Inner() && direction.Forward? && from <= |es|
      requires valid ==>
                 from <= iter.cur && Live(es, sequence, iter.cur) &&
                 forall i :: from <= i < iter.cur ==> !Live(es, sequence, i)
      requires !valid ==> forall i :: from <= i < |es| ==> !Live(es, sequence, i)
      modifies this`cur
      ensures Ok() && cur == |LivesUpTo(es, sequence, from)|
    {
      if valid {
        LiveAt(es, sequence, iter.cur);
        NoneBetween(es, sequence, from, iter.cur);
      } else {
        NoneBetween(es, sequence, from, |es|);
      }
      cur := |LivesUpTo(es, sequence, from)|;
    }

    /** Sets the cursor after a backward search below `hi`. */
    ghost method SettleBackward(hi: nat, c: int)
      requires Inner() && hi <= |es|
      requires valid ==>
                 && direction.Reverse? && 0 <= c < hi && Live(es, sequence, c)
                 && (forall j :: c < j < hi ==> !Live(es, sequence, j))
                 && savedKey == Key(es[c].key.user) && savedValue == es[c].value &&
                    Behind(es, sequence, iter.cur, es[c].key.user)
      requires !valid ==> direction.Forward? && forall j :: 0 <= j < hi ==> !Live(es, sequence, j)
      modifies this`cur
      ensures Ok()
      ensures cur == if |LivesUpTo(es, sequence, hi)| == 0 then |Lives(es, sequence)|
              else |LivesUpTo(es, sequence, hi)| - 1
    {
      if valid {
        LiveAt(es, sequence, c);
        NoneBetween(es, sequence, c + 1, hi);
        cur := |LivesUpTo(es, sequence, c)|;
      } else {
        NoneBetween(es, sequence, 0, hi);
        cur := |Lives(es, sequence)|;
      }
    }

    method Next()
      requires Ok() && valid
      modifies this, iter
      ensures Ok() && cur == old(cur) + 1
    {
      hide Mergers.MergingIterator.Ok, Sorted, Live, Behind, SkipOk, Lives, LivesUpTo;
      ghost var c := Lives(es, sequence)[cur];
      LivesOrder(es, sequence, cur);
      LiveAt(es, sequence, c);
      var found, e := iter.Current();
      if direction.Reverse? {
        // the entries of the current key lie ahead, so the internal iterator is valid
        // after this move
        NextFromReverse(es, sequence, iter.cur, c);
        direction := Forward;
        if !found {
          iter.SeekToFirst();
        } else {
          iter.Next();
        }
      } else {
        NextFromForward(es, sequence, c);
        savedKey := Key(e.key.user);
      }
      FindNextUserEntry(true, savedKey, c + 1);
      SettleForward(c + 1);
    }

    method Prev()
      requires Ok() && valid
      modifies this, iter
      ensures Ok() && cur == if old(cur) == 0 then |Lives(es, sequence)| else old(cur) - 1
    {
      hide Mergers.MergingIterator.Ok, Sorted, Live, Behind, LivesUpTo;
      ghost var c := Lives(es, sequence)[cur];
      LivesOrder(es, sequence, cur);
      ghost var hi := c;
      if direction.Forward? {
        var _, e := iter.Current();
        savedKey := Key(e.key.user);
        var found := ScanBack(c);
        if !found {
          valid, savedKey, savedValue := false, Nothing, [];
          SettleBackward(c, -1);
          return;
        }
        hi := iter.cur + 1;
        direction := Reverse;
      } else {
        hi := if iter.cur < |es| then iter.cur + 1 else 0;
        NoLiveBehind(es, sequence, iter.cur, c);
      }
      NoneBetween(es, sequence, hi, c);
      ghost var low := FindPrevUserEntry(hi);
      SettleBackward(hi, low);
    }

    /** The loop of Prev that backs out of the current key's entries; false when the
        internal iterator runs off the front. */
    method ScanBack(ghost c: nat) returns (found: bool)
      requires Inner() && Live(es, sequence, c) && iter.cur == c && savedKey == Key(es[c].key.user)
      modifies iter
      ensures Inner()
      ensures found ==> iter.cur < c && forall j :: iter.cur < j < c ==> !Live(es, sequence, j)
      ensures !found ==> iter.cur == |es| && forall j :: 0 <= j < c ==> !Live(es, sequence, j)
    {
      UsersAscend(es);
      while true
        invariant Inner() && iter.cur <= c
        invariant forall j :: iter.cur <= j <= c ==> es[j].key.user == es[c].key.user
        decreases iter.cur
      {
        NoLiveInGroup(es, sequence, iter.cur, c);
        iter.Prev();
        var some, e := iter.Current();
        if !some {
          return false;
        }
        if e.key.user < savedKey.k {
          return true;
        }
      }
    }

    method SeekToFirst()
      requires Ok()
      modifies this, iter
      ensures Ok() && cur == 0
    {
      direction, savedValue := Forward, [];
      iter.SeekToFirst();
      var found, _ := iter.Current();
      if found {
        FindNextUserEntry(false, savedKey, 0);
      } else {
        valid := false;
      }
      SettleForward(0);
    }

    method SeekToLast()
      requires Ok()
      modifies this, iter
      ensures Ok() && cur == if |Lives(es, sequence)| == 0 then 0 else |Lives(es, sequence)| - 1
    {
      direction, savedValue := Reverse, [];
      iter.SeekToLast();
      ghost var low := FindPrevUserEntry(|es|);
      SettleBackward(|es|, low);
    }

    /** To the first shown entry with a key at or after the target. */
    method Seek(target: UserKey)
      requires Ok()
      modifies this, iter
      ensures Ok()
      ensures forall c :: 0 <= c < cur ==> Shown(es, sequence)[c].key.user < target
      ensures forall c :: cur <= c < |Shown(es, sequence)| ==> Shown(es, sequence)[c].key.user >= target
    {
      hide Mergers.MergingIterator.Ok, Sorted, Live, Behind, SkipOk, Lives, LivesUpTo;
      direction, savedValue, savedKey := Forward, [], Nothing;
      iter.Seek(LookupKey(target, sequence));
      ghost var from := iter.cur;
      SeekSkips(es, sequence, from, target);
      var found, _ := iter.Current();
      if found {
        FindNextUserEntry(false, savedKey, from);
      } else {
        valid := false;
      }
      SettleForward(from);
      SeekSplits(es, sequence, from, target);
    }
  }

  /** The entries of a live entry's key before it are not live. */
  lemma {:induction false} NoLiveInGroup(es: seq<Entry>, s: nat, lo: nat, c: nat)
    requires Live(es, s, c) && forall j :: lo <= j <= c ==> es[j].key.user == es[c].key.user
    ensures forall j :: lo <= j < c ==> !Live(es, s, j)
  {
  }

  lemma {:induction false} NoLiveBehind(es: seq<Entry>, s: nat, p: nat, c: nat)
    requires Sorted(es) && Live(es, s, c) && Behind(es, s, p, es[c].key.user) && p <= |es|
    ensures p < |es| ==> p < c
    ensures forall j :: (p < |es| ==> p < j) && 0 <= j < c ==> !Live(es, s, j)
  {
    UsersAscend(es);
  }

  /** Moving on from a live entry: its own key is skipped. */
  lemma {:induction false} NextFromForward(es: seq<Entry>, s: nat, c: nat)
    requires Sorted(es) && Live(es, s, c)
    ensures SkipOk(es, s, c + 1, c, true, Key(es[c].key.user))
  {
    UsersAscend(es);
  }

  lemma {:induction false} NextFromReverse(es: seq<Entry>, s: nat, p: nat, c: nat)
    requires Sorted(es) && Live(es, s, c) && p <= |es| && Behind(es, s, p, es[c].key.user)
    ensures var start := if p >= |es| then 0 else p + 1;
            start <= c && SkipOk(es, s, c + 1, start, true, Key(es[c].key.user))
  {
    UsersAscend(es);
  }

  lemma {:induction false} SeekSkips(es: seq<Entry>, s: nat, p: nat, target: UserKey)
    requires Sorted(es) && p <= |es|
    requires forall i :: 0 <= i < p ==> Before(es[i].key, LookupKey(target, s))
    requires p < |es| ==> !Before(es[p].key, LookupKey(target, s))
    ensures SkipOk(es, s, p, p, false, Nothing)
  {
    UsersAscend(es);
  }

  /** Shown keys before the sought position are smaller, those from it on are not. */
  lemma {:induction false} SeekSplits(es: seq<Entry>, s: nat, p: nat, target: UserKey)
    requires Sorted(es) && p <= |es|
    requires forall i :: 0 <= i < p ==> Before(es[i].key, LookupKey(target, s))
    requires p < |es| ==> !Before(es[p].key, LookupKey(target, s))
    ensures |LivesUpTo(es, s, p)| <= |Shown(es, s)|
    ensures forall c :: 0 <= c < |LivesUpTo(es, s, p)| ==> Shown(es, s)[c].key.user < target
    ensures forall c :: |LivesUpTo(es, s, p)| <= c < |Shown(es, s)| ==> Shown(es, s)[c].key.user >= target
  {
    LivesPrefix(es, s, p, |es|);
    LivesAre(es, s, p);
    LivesAre(es, s, |es|);
    UsersAscend(es);
    var ls := Lives(es, s);
    assert forall d :: 0 <= d < |LivesUpTo(es, s, p)| ==> ls[d] == LivesUpTo(es, s, p)[d];
    assert forall c :: |LivesUpTo(es, s, p)| <= c < |ls| ==> ls[c] !in LivesUpTo(es, s, p);
    assert forall c :: |LivesUpTo(es, s, p)| <= c < |ls| ==> ls[c] >= p;
  }

  // ----- any sequence of calls -----

  /** The first of the shown entries with a key at or after `k`. */
  ghost function FirstAtLeast(shown: seq<Entry>, k: UserKey): (c: nat)
    ensures c <= |shown|
    ensures forall d :: 0 <= d < c ==> shown[d].key.user < k
    ensures c < |shown| ==> shown[c].key.user >= k
  {
    if shown == [] || shown[0].key.user >= k then 0 else 1 + FirstAtLeast(shown[1..], k)
  }

  lemma {:induction false} SplitIsUnique(shown: seq<Entry>, k: UserKey, c: nat)
    requires c <= |shown|
    requires forall d :: 0 <= d < c ==> shown[d].key.user < k
    requires forall d :: c <= d < |shown| ==> shown[d].key.user >= k
    ensures c == FirstAtLeast(shown, k)
  {
    var f := FirstAtLeast(shown, k);
    if c < |shown| { assert shown[c].key.user >= k; }
    if f < |shown| { assert shown[f].key.user >= k; }
  }

  /** Where a seek leads among the shown entries. */
  ghost function Seeks(shown: seq<Entry>): UserKey -> nat { k => FirstAtLeast(shown, k) }

  method Apply(it: DBIter, op: Op<UserKey>)
    requires it.Ok() && (op.Forth? || op.Back? ==> it.valid)
    modifies it, it.iter
    ensures it.Ok() && it.cur == Moved(|Shown(it.es, it.sequence)|, Seeks(Shown(it.es, it.sequence)), old(it.cur), op)
  {
    match op
    case SeekTo(k) =>
      it.Seek(k);
      SplitIsUnique(Shown(it.es, it.sequence), k, it.cur);
    case ToFirst => it.SeekToFirst();
    case ToLast => it.SeekToLast();
    case Forth => it.Next();
    case Back => it.Prev();
  }

  /** Whatever calls are made, in whatever order and direction, the iterator is a
      cursor over the shown entries. */
  method ApplyAll(it: DBIter, ops: seq<Op<UserKey>>)
    requires it.Ok() && Legal(|Shown(it.es, it.sequence)|, Seeks(Shown(it.es, it.sequence)), it.cur, ops)
    modifies it, it.iter
    ensures it.Ok() && it.cur == MovedAll(|Shown(it.es, it.sequence)|, Seeks(Shown(it.es, it.sequence)), old(it.cur),
                                          ops)
  {
    var n := 0;
    while n < |ops|
      invariant 0 <= n <= |ops| && it.Ok()
      invariant Legal(|Shown(it.es, it.sequence)|, Seeks(Shown(it.es, it.sequence)), it.cur, ops[n..])
      invariant MovedAll(|Shown(it.es, it.sequence)|, Seeks(Shown(it.es, it.sequence)), it.cur, ops[n..])
                == MovedAll(|Shown(it.es, it.sequence)|, Seeks(Shown(it.es, it.sequence)), old(it.cur), ops)
    {
      assert ops[n..][1..] == ops[n + 1..];
      Apply(it, ops[n]);
      n := n + 1;
    }
  }
}
