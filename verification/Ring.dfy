/** The window of frames both ends keep: sequence number `q` lives in slot `q % size`. */
module Ring {
  import opened Bytes
  import opened Chunks

  datatype FrameState = Empty | Full | Sent | Written

  /** The fields of the source's `window`, with the states of its frames. */
  datatype Win = Win(
    states: seq<FrameState>,
    buffsize: nat,
    top: nat,
    bottom: nat,
    rr: nat,
    srej: nat,
    topSent: nat,
    numWait: nat,
    eof: bool)

  function Slot(size: nat, q: nat): (k: nat)
    requires size > 0
    ensures k < size
  {
    q % size
  }

  /** `window_alloc` on a socket whose sequence number is `seq0`.  The two counters the source leaves
      unset are taken to be zero. */
  function WindowAlloc(seq0: u32, size: u32, buffsize: nat): Win {
    var first := (seq0 + 1) % U32_LIMIT;
    Win(seq(size, _ => Empty), buffsize, (seq0 + size) % U32_LIMIT, first, first, first, 0, 0, false)
  }

  /** No 32-bit computation on a window wraps: neither the sums that move it nor a loop that runs one past
      its top, or one below its bottom. */
  predicate FitsU32(w: Win) {
    && w.bottom + |w.states| < U32_LIMIT
    && w.top + 1 < U32_LIMIT
    && Max(w.rr, w.srej) + |w.states| < U32_LIMIT
    && w.rr + 1 < U32_LIMIT
    && w.bottom >= 1
  }

  // ---------- loops over the window ----------

  /** The index of a loop from `bottom` up, in 32 bits, after `k` turns. */
  function LoopIndex(bottom: nat, k: nat): nat {
    (bottom + k) % U32_LIMIT
  }

  /** The loop that runs while its index is at most `top` ends: some index exceeds `top`. */
  ghost predicate LoopEnds(bottom: nat, top: nat) {
    exists k: nat :: LoopIndex(bottom, k) > top
  }

  /** A loop over a window ends exactly if the window's top is not the highest number there is. */
  lemma LoopEndsIff(bottom: u32, top: u32)
    ensures LoopEnds(bottom, top) <==> top < U32_MAX
  {
    if top < U32_MAX {
      assert LoopIndex(bottom, U32_MAX - bottom) > top;
    }
  }

  /** A window of `size` frames that starts at `m` has that top exactly if `m + size` is 2^32, and wraps around
      to below its bottom exactly if it is more. */
  lemma SlidTopIff(m: u32, size: u32)
    requires m >= 1 && size >= 1
    ensures (m + size - 1) % U32_LIMIT == U32_MAX <==> m + size == U32_LIMIT
    ensures (m + size - 1) % U32_LIMIT < m <==> m + size > U32_LIMIT
  {
  }

  // ---------- slots and sequence numbers ----------

  /** The slot of a number is its remainder by the window's size. */
  lemma SlotIsRemainder(size: nat, q: nat) returns (d: nat)
    requires size > 0
    ensures q == size * d + Slot(size, q) && Slot(size, q) < size
  {
    d := q / size;
  }

  lemma SlotInjective(size: nat, lo: nat, p: nat, q: nat)
    requires size > 0 && lo <= p < lo + size && lo <= q < lo + size
    ensures Slot(size, p) == Slot(size, q) <==> p == q
  {
    if Slot(size, p) == Slot(size, q) {
      var a, b, r := p / size, q / size, Slot(size, p);
      assert p == size * a + r;
      assert q == size * b + r;
      CloseMultiples(size, a, b, p - q);
    }
  }

  lemma SlotWraps(size: nat, q: nat)
    requires size > 0
    ensures Slot(size, q + size) == Slot(size, q)
  {
    var a, b := q / size, (q + size) / size;
    assert q == size * a + q % size;
    assert q + size == size * (a + 1) + q % size;
    SameQuotient(size, q + size, a + 1, q % size);
  }

  /** Multiples of `size` less than `size` apart are equal. */
  lemma CloseMultiples(size: nat, a: int, b: int, gap: int)
    requires gap < size && -gap < size && size * a - size * b == gap
    ensures a == b
  {
    assert size * (a - b) == gap;
    if a > b {
      MultipleAtLeast(size, a - b);
    } else if b > a {
      assert size * (b - a) == -gap;
      MultipleAtLeast(size, b - a);
    }
  }

  lemma MultipleAtLeast(size: nat, d: nat)
    requires d >= 1
    ensures size * d >= size
  {
  }

  lemma SameQuotient(size: nat, x: nat, a: int, r: nat)
    requires r < size && x == size * a + r
    ensures Slot(size, x) == r
  {
    var b := x / size;
    assert x == size * b + Slot(size, x);
    CloseMultiples(size, b, a, r - Slot(size, x));
  }

  /** The sequence number of the window starting at `lo` that lives in slot `k`. */
  lemma SlotSurjective(size: nat, lo: nat, k: nat) returns (q: nat)
    requires k < size
    ensures lo <= q < lo + size && Slot(size, q) == k
  {
    var r := lo % size;
    var a := lo / size;
    assert lo == size * a + r;
    if k >= r {
      q := size * a + k;
      SameQuotient(size, q, a, k);
    } else {
      q := size * a + size + k;
      assert q == size * (a + 1) + k;
      SameQuotient(size, q, a + 1, k);
    }
  }

  // ---------- the window slides ----------

  /** The downward loop of `adjust_window`: empties the slots of `hi - 1` down to `lo`. */
  function EmptyDown(states: seq<FrameState>, hi: nat, lo: nat): (r: seq<FrameState>)
    requires |states| > 0
    ensures |r| == |states|
    decreases hi
  {
    if hi <= lo then states
    else EmptyDown(states[Slot(|states|, hi - 1) := Empty], hi - 1, lo)
  }

  /** The loop empties the slots of the numbers leaving the window and touches no other slot. */
  lemma {:induction false} EmptyDownEffect(states: seq<FrameState>, hi: nat, lo: nat, k: nat)
    requires k < |states|
    ensures EmptyDown(states, hi, lo)[k] ==
            if exists q :: lo <= q < hi && Slot(|states|, q) == k then Empty else states[k]
    decreases hi
  {
    if hi > lo {
      var next := states[Slot(|states|, hi - 1) := Empty];
      EmptyDownEffect(next, hi - 1, lo, k);
      if exists q :: lo <= q < hi - 1 && Slot(|states|, q) == k {
        var q :| lo <= q < hi - 1 && Slot(|states|, q) == k;
        assert lo <= q < hi;
      } else if Slot(|states|, hi - 1) == k {
        assert lo <= hi - 1 < hi;
      }
    }
  }

  predicate Moves(w: Win) {
    w.rr > w.bottom || w.srej > w.bottom
  }

  /** What both ends' `adjust_window` do to the window; its top is a sum of 32 bits. */
  function Slide(w: Win): (r: Win)
    requires |w.states| > 0
  {
    if Moves(w) then
      var m := Max(w.rr, w.srej);
      w.(states := EmptyDown(w.states, m, w.bottom), bottom := m, top := (m + |w.states| - 1) % U32_LIMIT)
    else w
  }

  /** A slide that stays within 32 bits. */
  lemma SlideFits(w: Win)
    requires |w.states| > 0 && Max(w.rr, w.srej) + |w.states| <= U32_LIMIT
    ensures var r := Slide(w);
            && r == w.(states := r.states, bottom := r.bottom, top := r.top) && |r.states| == |w.states|
            && if Moves(w) then r.bottom == Max(w.rr, w.srej) > w.bottom && r.top == r.bottom + |w.states| - 1
               else r == w
  {
    hide EmptyDown;
  }

  /** In a window of `size` numbers that starts at `bottom`, sliding by at most `size` keeps the slots of
      the numbers that stay and empties the slots of the numbers that enter. */
  lemma SlideEffect(w: Win, q: nat)
    requires |w.states| > 0 && w.top == w.bottom + |w.states| - 1
    requires w.bottom <= Max(w.rr, w.srej) <= w.top + 1 && Max(w.rr, w.srej) + |w.states| <= U32_LIMIT
    requires Slide(w).bottom <= q <= Slide(w).top
    ensures Slide(w).states[Slot(|w.states|, q)] == if q <= w.top then w.states[Slot(|w.states|, q)] else Empty
  {
    if Moves(w) {
      var size := |w.states|;
      var m := Max(w.rr, w.srej);
      var k := Slot(size, q);
      EmptyDownEffect(w.states, m, w.bottom, k);
      if q <= w.top {
        forall p | w.bottom <= p < m ensures Slot(size, p) != k {
          SlotInjective(size, w.bottom, p, q);
        }
      } else {
        SlotWraps(size, q - size);
        assert w.bottom <= q - size < m && Slot(size, q - size) == k;
      }
    }
  }

  // ---------- sent frames become full again ----------

  /** The loop of `timeout_on_response`: every sent frame becomes full again. */
  function RefillFrom(states: seq<FrameState>, q: nat, top: nat): (r: seq<FrameState>)
    requires |states| > 0
    ensures |r| == |states|
    decreases top + 1 - q
  {
    if q > top then states
    else
      var k := Slot(|states|, q);
      RefillFrom(if states[k] == Sent then states[k := Full] else states, q + 1, top)
  }

  lemma {:induction false} RefillEffect(states: seq<FrameState>, lo: nat, q: nat, top: nat, p: nat)
    requires |states| > 0 && lo <= q <= top + 1 && top == lo + |states| - 1
    requires lo <= p <= top
    ensures RefillFrom(states, q, top)[Slot(|states|, p)] ==
            var was := states[Slot(|states|, p)]; if p >= q && was == Sent then Full else was
    decreases top + 1 - q
  {
    if q <= top {
      var k := Slot(|states|, q);
      RefillEffect(if states[k] == Sent then states[k := Full] else states, lo, q + 1, top, p);
      SlotInjective(|states|, lo, p, q);
    }
  }
}
