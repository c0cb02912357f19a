/** The scroll-back store of the console (the private `LineQueue` class of
    ZConsole.cs): a ring of line slots and a cursor `ix` at the newest line.
    A slot holds `None` where the C# array holds `null`.

    The public meaning of a queue is its newest-first view, `Lines()`: element k
    is what the indexer `this[k]` returns. Every mutating method is specified by
    what it does to that view. */
module LineQueues {
  import opened Wrappers

  /** Newest-first view of the slots: index 0 is the newest line. */
  type View = seq<Option<string>>

  /** `a % n` for `0 <= a < 2n`, written without the remainder. */
  function Wrap(a: int, n: int): int
    requires 0 <= a < 2 * n
  {
    if a < n then a else a - n
  }

  /** The Euclidean remainder of a number below `2n` is `Wrap`. */
  lemma ModWrap(a: int, n: int)
    requires 0 <= a < 2 * n
    ensures a % n == Wrap(a, n)
  {
    if a >= n {
      assert a == 1 * n + (a - n);
    }
  }

  /** A non-zero multiple of `n` is at least `n` away from zero. */
  lemma MulBounds(d: int, n: int)
    requires n >= 1
    ensures d >= 1 ==> d * n >= n
    ensures d <= -1 ==> d * n <= -n
  {
    if d >= 1 {
      assert d * n == (d - 1) * n + n;
      assert (d - 1) * n >= 0;
    } else if d <= -1 {
      assert d * n == (d + 1) * n - n;
      assert (d + 1) * n <= 0;
    }
  }

  /** The remainder is determined by any quotient-remainder split. */
  lemma ModUnique(a: int, n: int, q: int, r: int)
    requires n >= 1 && a == q * n + r && 0 <= r < n
    ensures a % n == r
  {
    var q', r' := a / n, a % n;
    assert (q' - q) * n == r - r';
    MulBounds(q' - q, n);
  }

  /** Adding the modulus does not change the remainder. */
  lemma ModAddN(a: int, n: int)
    requires n >= 1
    ensures (a + n) % n == a % n
  {
    ModUnique(a + n, n, a / n + 1, a % n);
  }

  /** The physical slot the indexer reads for offset `k` when the cursor is at
      `c` in a ring of `n` slots: the slot `k` places behind the cursor,
      wrapping round the end of the array. `Get` shows that this is the
      indexer's `(c - k + n) % n`. */
  function Slot(c: int, k: int, n: int): (r: int)
    requires 0 <= c < n && 0 <= k < n
    ensures 0 <= r < n
  {
    if k <= c then c - k else c - k + n
  }

  /** The newest-first view of a ring `q` whose newest slot is `c`. */
  function RingView(q: seq<Option<string>>, c: int): (v: View)
    requires 0 <= c < |q|
    ensures |v| == |q|
  {
    seq(|q|, k requires 0 <= k < |q| => q[Slot(c, k, |q|)])
  }

  /** A view of `n` empty slots. */
  function Nones(n: nat): (v: View)
    ensures |v| == n
    ensures forall k :: 0 <= k < n ==> v[k] == None
  {
    seq(n, _ => None)
  }

  /** The view after a new newest line enters: everything moves one place
      older and the oldest line is lost. */
  function AddView(v: View, line: string): (r: View)
    requires |v| >= 1
    ensures |r| == |v| && r[0] == Some(line)
    ensures forall k :: 1 <= k < |v| ==> r[k] == v[k - 1]
  {
    [Some(line)] + v[..|v| - 1]
  }

  /** The view after the newest line is overwritten. */
  function ReplaceView(v: View, line: string): (r: View)
    requires |v| >= 1
    ensures |r| == |v| && r[0] == Some(line)
    ensures forall k :: 1 <= k < |v| ==> r[k] == v[k]
  {
    v[0 := Some(line)]
  }

  /** The view after a change of capacity: the newest `size` lines are kept
      and new capacity is padded with empty slots. */
  function ResizeView(v: View, size: nat): (r: View)
    ensures |r| == size
    ensures forall k :: 0 <= k < size && k < |v| ==> r[k] == v[k]
    ensures forall k :: |v| <= k < size ==> r[k] == None
  {
    if size <= |v| then v[..size] else v + Nones(size - |v|)
  }

  /** Writing line `x` into the slot after the cursor and moving the cursor
      there (ZConsole.cs:264-265) is `AddView` on the indexer's view. */
  lemma RingAdd(q: seq<Option<string>>, c: int, x: string)
    requires 0 <= c < |q|
    ensures var n := |q|;
            RingView(q[Wrap(c + 1, n) := Some(x)], Wrap(c + 1, n)) == AddView(RingView(q, c), x)
  {
    var n := |q|;
    var c' := Wrap(c + 1, n);
    var q' := q[c' := Some(x)];
    var lhs, rhs := RingView(q', c'), AddView(RingView(q, c), x);
    forall k | 0 <= k < n
      ensures lhs[k] == rhs[k]
    {
      if k > 0 {
        assert Slot(c', k, n) == Slot(c, k - 1, n);
        assert Slot(c', k, n) != c';
      }
    }
  }

  /** Writing line `x` into the cursor's own slot (ZConsole.cs:271) is
      `ReplaceView` on the indexer's view. */
  lemma RingReplace(q: seq<Option<string>>, c: int, x: string)
    requires 0 <= c < |q|
    ensures RingView(q[c := Some(x)], c) == ReplaceView(RingView(q, c), x)
  {
    var n := |q|;
    var lhs, rhs := RingView(q[c := Some(x)], c), ReplaceView(RingView(q, c), x);
    forall k | 0 <= k < n
      ensures lhs[k] == rhs[k]
    {
      assert k > 0 ==> Slot(c, k, n) != c;
    }
  }

  /** A ring of empty slots shows only empty slots, wherever its cursor is. */
  lemma RingOfNones(q: seq<Option<string>>, c: int)
    requires 0 <= c < |q|
    requires forall p :: 0 <= p < |q| ==> q[p] == None
    ensures RingView(q, c) == Nones(|q|)
  {
  }

  /** Resizing to the same capacity twice is resizing once. */
  lemma ResizeTwice(v: View, size: nat)
    ensures ResizeView(ResizeView(v, size), size) == ResizeView(v, size)
  {
  }

  /** The layout `Resize` builds: the newest line in slot 0, empty slots from
      1 to `base`, then the older surviving lines, oldest first, up to the end
      of the array. Read from cursor 0 this is the resized view. */
  lemma ResizedRing(q: seq<Option<string>>, c: int, nq: seq<Option<string>>, base: int)
    requires 0 <= c < |q| && 1 <= |nq|
    requires base == if |nq| < |q| then 1 else 1 + |nq| - |q|
    requires nq[0] == q[c]
    requires forall p :: 1 <= p < base ==> nq[p] == None
    requires forall p :: base <= p < |nq| ==> nq[p] == q[Slot(c, |nq| - p, |q|)]
    ensures RingView(nq, 0) == ResizeView(RingView(q, c), |nq|)
  {
    var lhs, rhs := RingView(nq, 0), ResizeView(RingView(q, c), |nq|);
    forall k | 0 <= k < |nq|
      ensures lhs[k] == rhs[k]
    {
      if k > 0 {
        assert lhs[k] == nq[|nq| - k];
      }
    }
  }

  class LineQueue {
    /** The slots; a `null` entry is `None`. */
    var queue: array<Option<string>>
    /** The cursor `_ix`: the physical slot of the newest line. */
    var ix: int

    ghost predicate Valid()
      reads this
    {
      1 <= queue.Length && 0 <= ix < queue.Length
    }

    /** What the indexer shows, newest first. */
    ghost function Lines(): (v: View)
      reads this, queue
      requires Valid()
      ensures |v| == queue.Length
    {
      RingView(queue[..], ix)
    }

    /** A queue of one empty slot (ZConsole.cs:243-246). */
    constructor ()
      ensures Valid() && fresh(queue)
      ensures Lines() == [None] && ix == 0
    {
      queue := new Option<string>[1](_ => None);
      ix := 0;
    }

    /** The cursor setter (ZConsole.cs:234-240): add the length until the value
        is not negative, then take the remainder. */
    method SetIndex(value: int)
      requires 1 <= queue.Length
      modifies this
      ensures Valid() && queue == old(queue)
      ensures ix == value % queue.Length
      ensures 0 <= value < 2 * queue.Length ==> ix == Wrap(value, queue.Length)
    {
      var n := queue.Length;
      ix := value;
      while ix < 0
        invariant ix % n == value % n
        invariant queue == old(queue)
        decreases -ix
      {
        ModAddN(ix, n);
        ix := ix + n;
      }
      if 0 <= value < 2 * n {
        ModWrap(value, n);
      }
      ix := ix % n;
    }

    /** The number of slots, `Count` (ZConsole.cs:258). */
    function Count(): (n: nat)
      reads this, queue
      requires Valid()
      ensures n == |Lines()| && n >= 1
    {
      queue.Length
    }

    /** The indexer getter (ZConsole.cs:248-256): the line `k` places older
        than the newest, or ArgumentOutOfRange outside `[0, Count)`. */
    function Get(k: int): (r: Result<Option<string>>)
      reads this, queue
      requires Valid()
      ensures r.Success? <==> 0 <= k < queue.Length
      ensures r.Failure? ==> r.error == ArgumentOutOfRange
      ensures r.Success? ==> r.value == Lines()[k]
    {
      if k < 0 || k >= queue.Length then Failure(ArgumentOutOfRange)
      else
        ModWrap(ix - k + queue.Length, queue.Length);
        Success(queue[(ix - k + queue.Length) % queue.Length])
    }

    /** `Add` (ZConsole.cs:260-266): refuse null, advance the cursor, store. */
    method Add(line: Option<string>) returns (o: Outcome)
      requires Valid()
      modifies this, queue
      ensures Valid() && queue == old(queue)
      ensures o == if line.None? then Fail(ArgumentNull) else Pass
      ensures line.None? ==> ix == old(ix) && Lines() == old(Lines())
      ensures line.Some? ==> ix == (old(ix) + 1) % queue.Length
      ensures line.Some? ==> Lines() == AddView(old(Lines()), line.value)
    {
      if line.None? {
        return Fail(ArgumentNull);
      }
      ghost var q, c, n := queue[..], ix, queue.Length;
      assert old(Lines()) == RingView(q, c);
      SetIndex(ix + 1);
      queue[ix] := line;
      assert queue[..] == q[Wrap(c + 1, n) := Some(line.value)];
      RingAdd(q, c, line.value);
      o := Pass;
    }

    /** `ReplaceFirstLine` (ZConsole.cs:267-272): refuse null, overwrite the
        newest slot, leave the cursor where it is. */
    method ReplaceFirstLine(line: Option<string>) returns (o: Outcome)
      requires Valid()
      modifies queue
      ensures Valid()
      ensures o == if line.None? then Fail(ArgumentNull) else Pass
      ensures line.None? ==> Lines() == old(Lines())
      ensures line.Some? ==> Lines() == ReplaceView(old(Lines()), line.value)
    {
      if line.None? {
        return Fail(ArgumentNull);
      }
      ghost var q := queue[..];
      queue[ix] := line;
      assert queue[..] == q[ix := line];
      RingReplace(q, ix, line.value);
      o := Pass;
    }

    /** `Clear` (ZConsole.cs:274-278): null every slot; count and cursor stay. */
    method Clear()
      requires Valid()
      modifies queue
      ensures Valid()
      ensures Lines() == Nones(queue.Length)
    {
      for i := 0 to queue.Length
        invariant forall p :: 0 <= p < i ==> queue[p] == None
      {
        queue[i] := None;
      }
      RingOfNones(queue[..], ix);
    }

    /** `Resize` (ZConsole.cs:280-300). The newest line goes to slot 0; the
        copy loop then moves the older lines that survive, oldest first, into
        the end of the new array, so that with the cursor reset to 0 the
        indexer shows the same lines as before: the oldest are dropped when the
        queue shrinks and empty slots are added when it grows. */
    method Resize(size: int) returns (o: Outcome)
      requires Valid()
      modifies this
      ensures Valid()
      ensures size <= 0 ==> o == Fail(ArgumentOutOfRange) && queue == old(queue) && ix == old(ix)
      ensures size > 0 ==> o == Pass && fresh(queue) && queue.Length == size && ix == 0
      ensures size > 0 ==> Lines() == ResizeView(old(Lines()), size)
    {
      if size <= 0 {
        return Fail(ArgumentOutOfRange);
      }
      ghost var q := queue[..];
      var n := queue.Length;
      var newQ := new Option<string>[size](_ => None);
      var startIx := ix;
      var i := 0;
      newQ[i] := queue[ix];
      i := i + 1;
      SetIndex(ix + 1);
      if size < n {
        SetIndex(ix + (n - size));
      } else {
        i := i + size - n;
      }
      assert i % size == Wrap(i, size) by { ModWrap(i, size); }
      i := i % size;
      // `m` lines survive: the newest, already copied, and `m - 1` older ones.
      ghost var m := if size < n then size else n;
      assert ix == Slot(startIx, m - 1, n);
      assert i == if m > 1 then size - (m - 1) else 0;
      ghost var nq := newQ[..];
      assert nq[0] == q[startIx] && forall p :: 1 <= p < size ==> nq[p] == None;
      CopyOlder(newQ, startIx, i, m);
      ResizedRing(q, startIx, newQ[..], size - m + 1);
      ghost var v := RingView(q, startIx);
      assert old(Lines()) == v;
      SetIndex(0);
      queue := newQ;
      o := Pass;
      assert Lines() == RingView(newQ[..], 0);
    }

    /** The copy loop of `Resize` (ZConsole.cs:293-297): starting at the
        oldest surviving line, offset `m - 1`, copy each line up to the one
        before the newest into index `size - offset` of the new array,
        advancing the cursor until it is back at `startIx`. */
    method CopyOlder(newQ: array<Option<string>>, startIx: int, i0: int, ghost m: int)
      requires Valid() && newQ != queue
      requires 1 <= m <= queue.Length && m <= newQ.Length
      requires 0 <= startIx < queue.Length && ix == Slot(startIx, m - 1, queue.Length)
      requires i0 == if m > 1 then newQ.Length - (m - 1) else 0
      modifies this, newQ
      ensures Valid() && queue == old(queue) && ix == startIx
      ensures forall p :: 0 <= p < newQ.Length - m + 1 ==> newQ[p] == old(newQ[p])
      ensures forall p :: newQ.Length - m + 1 <= p < newQ.Length ==>
                newQ[p] == queue[Slot(startIx, newQ.Length - p, queue.Length)]
    {
      var n, size := queue.Length, newQ.Length;
      var i := i0;
      // `k` is the offset of the line about to be copied.
      ghost var k := m - 1;
      while ix != startIx
        invariant Valid() && queue == old(queue)
        invariant 0 <= k <= m - 1
        invariant ix == Slot(startIx, k, n)
        invariant i == if k > 0 then size - k else 0
        invariant forall p :: 0 <= p < size - m + 1 ==> newQ[p] == old(newQ[p])
        invariant forall p :: size - m + 1 <= p < size - k ==> newQ[p] == queue[Slot(startIx, size - p, n)]
        decreases k
      {
        newQ[i] := queue[ix];
        i := i + 1;
        SetIndex(ix + 1);
        assert i % size == Wrap(i, size) by { ModWrap(i, size); }
        i := i % size;
        k := k - 1;
      }
    }
  }
}
