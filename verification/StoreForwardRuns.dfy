/** Whole runs of the store-and-forward buffer: order, no underrun inside a frame, and when it can stall for good. */
module StoreForwardRuns {
  import opened Modular
  import opened StoreForward

  /** n entries of a ring memory from slot at, in ring order. */
  function Ring(mem: seq<Entry>, at: nat, n: nat): seq<Entry>
    requires at < |mem| && n <= |mem|
  {
    seq(n, k requires 0 <= k < n => mem[Add(at, k, |mem|)])
  }

  /** Entries in the FIFO, oldest first. */
  function Fifo(s: State): seq<Entry>
    requires Shape(s) && FillLevel(s) <= s.depth
  {
    Ring(s.mem, s.rdPtr % s.depth, FillLevel(s))
  }

  function Lasts(f: seq<Entry>): nat {
    if f == [] then 0 else Lasts(f[..|f| - 1]) + if f[|f| - 1].last then 1 else 0
  }

  /** The unfinished frame at the end of a stream. */
  function OpenTail(f: seq<Entry>): seq<Entry> {
    if f == [] || f[|f| - 1].last then [] else OpenTail(f[..|f| - 1]) + [f[|f| - 1]]
  }

  datatype View = View(s: State, inp: seq<Entry>, outs: seq<Entry>)

  function Step(v: View, i: Inputs): View
    requires Shape(v.s)
  {
    View(Edge(v.s, i),
         if Write(v.s, i) then v.inp + [i.entry] else v.inp,
         if Read(v.s, i) then v.outs + [Dout(v.s)] else v.outs)
  }

  /** The sink has taken the start of a frame and not yet its end. */
  predicate MidFrame(outs: seq<Entry>) {
    outs != [] && !outs[|outs| - 1].last
  }

  predicate Inv(v: View) {
    && Shape(v.s)
    && FillLevel(v.s) <= v.s.depth
    && v.outs + Fifo(v.s) == v.inp
    && v.s.pending == Lasts(Fifo(v.s)) <= v.s.max
    && (MidFrame(v.outs) ==> v.s.pending > 0)
    && v.s.committed == Lasts(v.inp) % WORD
    && v.s.drained == Lasts(v.outs) % WORD
  }

  // ---- The FIFO ----

  /** Level and slot numbers without the modulus. */
  lemma Pointers(s: State)
    requires Shape(s)
    ensures FillLevel(s) == if s.wrPtr >= s.rdPtr then s.wrPtr - s.rdPtr else s.wrPtr + 2 * s.depth - s.rdPtr
  {
    if s.wrPtr >= s.rdPtr {
      ModUnique(s.wrPtr + 2 * s.depth - s.rdPtr, 1, s.wrPtr - s.rdPtr, 2 * s.depth);
    } else {
      ModUnique(s.wrPtr + 2 * s.depth - s.rdPtr, 0, s.wrPtr + 2 * s.depth - s.rdPtr, 2 * s.depth);
    }
  }

  lemma Wrap(x: nat, d: nat)
    requires x < 3 * d
    ensures x % d == if x < d then x else if x < 2 * d then x - d else x - 2 * d
  {
    if x < d {
      ModUnique(x, 0, x, d);
    } else if x < 2 * d {
      ModUnique(x, 1, x - d, d);
    } else {
      ModUnique(x, 2, x - 2 * d, d);
    }
  }

  lemma Advance(p: nat, d: nat)
    requires p < 2 * d
    ensures (p + 1) % (2 * d) == if p + 1 == 2 * d then 0 else p + 1
  {
    Wrap(p + 1, 2 * d);
  }

  function Push(f: seq<Entry>, write: bool, e: Entry): seq<Entry> {
    if write then f + [e] else f
  }

  lemma EdgeLevel(s: State, i: Inputs)
    requires Shape(s) && FillLevel(s) <= s.depth
    ensures Shape(Edge(s, i))
    ensures FillLevel(Edge(s, i))
         == FillLevel(s) + (if Write(s, i) then 1 else 0) - (if Read(s, i) then 1 else 0) <= s.depth
  {
    Advance(s.wrPtr, s.depth);
    Advance(s.rdPtr, s.depth);
    Pointers(s);
    Pointers(Edge(s, i));
  }

  lemma RingPop(mem: seq<Entry>, at: nat, n: nat)
    requires at < |mem| && 0 < n <= |mem|
    ensures Ring(mem, Next(at, |mem|), n - 1) == Ring(mem, at, n)[1..]
  {
  }

  lemma RingPush(mem: seq<Entry>, at: nat, n: nat, e: Entry)
    requires at < |mem| && n < |mem|
    ensures Ring(mem[Add(at, n, |mem|) := e], at, n + 1) == Ring(mem, at, n) + [e]
  {
  }

  /** The write slot is the free one behind the last entry; the read slot moves to the next one. */
  lemma EdgeSlots(s: State)
    requires Shape(s) && FillLevel(s) <= s.depth
    ensures (s.rdPtr + 1) % (2 * s.depth) % s.depth == Next(s.rdPtr % s.depth, s.depth)
    ensures s.wrPtr % s.depth == Add(s.rdPtr % s.depth, FillLevel(s), s.depth)
  {
    Pointers(s);
    Advance(s.rdPtr, s.depth);
    Wrap(s.rdPtr, s.depth);
    Wrap(s.wrPtr, s.depth);
    Wrap((s.rdPtr + 1) % (2 * s.depth), s.depth);
  }

  /** An edge pops the oldest entry when it reads and appends the new one when it writes. */
  lemma EdgeFifo(s: State, i: Inputs)
    requires Shape(s) && FillLevel(s) <= s.depth
    ensures Shape(Edge(s, i)) && FillLevel(Edge(s, i)) <= s.depth
    ensures Read(s, i) ==> Fifo(s) != [] && Fifo(s)[0] == Dout(s)
    ensures Fifo(Edge(s, i)) == Push(if Read(s, i) then Fifo(s)[1..] else Fifo(s), Write(s, i), i.entry)
  {
    EdgeLevel(s, i);
    EdgeSlots(s);
    var at, n := s.rdPtr % s.depth, FillLevel(s);
    if Write(s, i) {
      RingPush(s.mem, at, n, i.entry);
    }
    if Read(s, i) {
      RingPop(Edge(s, i).mem, at, if Write(s, i) then n + 1 else n);
    }
  }

  // ---- Counting frames ----

  lemma LastsAppend(f: seq<Entry>, e: Entry)
    ensures Lasts(f + [e]) == Lasts(f) + if e.last then 1 else 0
    ensures OpenTail(f + [e]) == if e.last then [] else OpenTail(f) + [e]
  {
  }

  lemma {:induction false} LastsConcat(a: seq<Entry>, b: seq<Entry>)
    ensures Lasts(a + b) == Lasts(a) + Lasts(b)
    ensures OpenTail(a + b) == if Lasts(b) == 0 then OpenTail(a) + b else OpenTail(b)
  {
    if b == [] {
      assert a + b == a && OpenTail(a) + b == OpenTail(a);
    } else {
      var n := |b| - 1;
      LastsConcat(a, b[..n]);
      assert a + b == a + b[..n] + [b[n]] && b[..n] + [b[n]] == b;
      LastsAppend(a + b[..n], b[n]);
      assert Lasts(b) == 0 ==> OpenTail(a) + b[..n] + [b[n]] == OpenTail(a) + b;
    }
  }

  lemma {:induction false} TailIsShort(f: seq<Entry>)
    ensures |OpenTail(f)| <= |f|
    ensures Lasts(f) > 0 ==> |OpenTail(f)| < |f|
  {
    if f == [] {
    } else {
      TailIsShort(f[..|f| - 1]);
    }
  }

  // ---- Every edge ----

  lemma InitialInv(s: State)
    requires Initial(s)
    ensures Inv(View(s, [], []))
  {
    Pointers(s);
  }

  lemma MoveAlong(outs: seq<Entry>, f: seq<Entry>, inp: seq<Entry>, read: bool, write: bool, e: Entry)
    requires outs + f == inp && (read ==> f != [])
    ensures (if read then outs + [f[0]] else outs) + Push(if read then f[1..] else f, write, e) == Push(inp, write, e)
  {
  }

  lemma StepOrder(v: View, i: Inputs)
    requires Inv(v)
    ensures FillLevel(Edge(v.s, i)) <= v.s.depth
    ensures Step(v, i).outs + Fifo(Edge(v.s, i)) == Step(v, i).inp
  {
    EdgeFifo(v.s, i);
    MoveAlong(v.outs, Fifo(v.s), v.inp, Read(v.s, i), Write(v.s, i), i.entry);
  }

  lemma StepPending(v: View, i: Inputs)
    requires Inv(v)
    ensures var f := if Read(v.s, i) then Fifo(v.s)[1..] else Fifo(v.s);
            Edge(v.s, i).pending == Lasts(Push(f, Write(v.s, i), i.entry))
    ensures Edge(v.s, i).pending <= v.s.max
    ensures Write(v.s, i) ==> v.s.pending < v.s.max
  {
    var f := Fifo(v.s);
    EdgeFifo(v.s, i);
    if Read(v.s, i) {
      assert f == [f[0]] + f[1..];
      LastsConcat([f[0]], f[1..]);
      LastsAppend([], f[0]);
      LastsAppend(f[1..], i.entry);
    }
    LastsAppend(f, i.entry);
  }

  lemma CounterStep(f: seq<Entry>, c: nat, e: Entry)
    requires c == Lasts(f) % WORD
    ensures (if e.last then Count(c, 1) else c) == Lasts(f + [e]) % WORD
  {
    LastsAppend(f, e);
    CountMod(Lasts(f), 1);
  }

  lemma StepCounters(v: View, i: Inputs)
    requires Shape(v.s) && v.s.committed == Lasts(v.inp) % WORD && v.s.drained == Lasts(v.outs) % WORD
    ensures var w := Step(v, i);
            && w.s.committed == Lasts(w.inp) % WORD
            && w.s.drained == Lasts(w.outs) % WORD
  {
    CounterStep(v.inp, v.s.committed, i.entry);
    CounterStep(v.outs, v.s.drained, Dout(v.s));
  }

  /** Inside a frame its tlast is still to come out. */
  lemma StepMidFrame(v: View, i: Inputs)
    requires Inv(v)
    ensures MidFrame(Step(v, i).outs) ==> Edge(v.s, i).pending > 0
  {
  }

  lemma FoldInv(v: View, f: seq<Entry>)
    requires Shape(v.s) && FillLevel(v.s) <= v.s.depth && f == Fifo(v.s) && v.outs + f == v.inp
    requires v.s.pending == Lasts(f) <= v.s.max && (MidFrame(v.outs) ==> v.s.pending > 0)
    requires v.s.committed == Lasts(v.inp) % WORD && v.s.drained == Lasts(v.outs) % WORD
    ensures Inv(v)
  {
  }

  lemma StepInv(v: View, i: Inputs)
    requires Inv(v)
    ensures Inv(Step(v, i)) && Step(v, i).s.depth == v.s.depth && Step(v, i).s.max == v.s.max
  {
    EdgeFifo(v.s, i);
    StepOrder(v, i);
    StepPending(v, i);
    StepCounters(v, i);
    StepMidFrame(v, i);
    FoldInv(Step(v, i), Push(if Read(v.s, i) then Fifo(v.s)[1..] else Fifo(v.s), Write(v.s, i), i.entry));
  }

  /** The run that one sequence of inputs drives, one clock edge each. */
  function After(v: View, run: seq<Inputs>): View
    requires Inv(v)
    ensures Inv(After(v, run)) && After(v, run).s.depth == v.s.depth && After(v, run).s.max == v.s.max
  {
    if run == [] then v
    else
      var w := After(v, run[..|run| - 1]);
      StepInv(w, run[|run| - 1]);
      Step(w, run[|run| - 1])
  }

  function FromReset(s: State, run: seq<Inputs>): View
    requires Initial(s)
  {
    InitialInv(s);
    After(View(s, [], []), run)
  }

  // ---- What a run shows ----

  /** Bytes leave in the order they came; the pending count is the complete frames inside and never saturates. */
  lemma OrderAndCount(s: State, run: seq<Inputs>)
    requires Initial(s)
    ensures var v := FromReset(s, run);
            && v.outs <= v.inp
            && |v.inp| - |v.outs| == FillLevel(v.s) <= s.depth
            && v.s.pending == Lasts(v.inp) - Lasts(v.outs) <= s.max
            && (forall i :: Write(v.s, i) && i.entry.last ==> v.s.pending < s.max)
  {
    var v := FromReset(s, run);
    LastsConcat(v.outs, Fifo(v.s));
  }

  /**
   A byte is taken exactly if there is room for it and for a frame's end; one is offered exactly if a whole
   frame is inside, and it is the next of the input. The counters are those of the tlasts on either side.
   */
  lemma Handshakes(s: State, run: seq<Inputs>)
    requires Initial(s)
    ensures var v := FromReset(s, run);
            && (Ready(v.s) <==> |v.inp| - |v.outs| != s.depth && Lasts(v.inp) - Lasts(v.outs) != s.max)
            && (Offers(v.s) <==> Lasts(v.inp) > Lasts(v.outs))
            && (Offers(v.s) ==> |v.outs| < |v.inp| && Dout(v.s) == v.inp[|v.outs|])
            && v.s.committed == Lasts(v.inp) % WORD && v.s.drained == Lasts(v.outs) % WORD
  {
    var v := FromReset(s, run);
    var f := Fifo(v.s);
    LastsConcat(v.outs, f);
    EdgeSlots(v.s);
    if v.s.pending != 0 {
      assert f != [];
      EdgeFifo(v.s, Inputs(false, Dout(v.s), true));
      assert v.inp[|v.outs|] == f[0];
    }
  }

  /** Inside a frame the buffer always has the next byte on offer. */
  lemma NoUnderrun(s: State, run: seq<Inputs>)
    requires Initial(s)
    ensures MidFrame(FromReset(s, run).outs) ==> Offers(FromReset(s, run).s)
  {
  }

  predicate Holds(v: View, w: View)
    requires Inv(v) && Inv(w)
  {
    && v.outs <= w.outs && Lasts(v.outs) <= Lasts(w.outs)
    && (Offers(v.s) && Lasts(w.outs) == Lasts(v.outs) ==> Offers(w.s))
    && (Offers(v.s) && w.outs == v.outs ==> Dout(w.s) == Dout(v.s))
  }

  lemma {:induction false} OfferHolds(v: View, more: seq<Inputs>)
    requires Inv(v)
    ensures Holds(v, After(v, more))
  {
    if more == [] {
    } else {
      var n := |more| - 1;
      OfferHolds(v, more[..n]);
      StepOffer(After(v, more[..n]), more[n]);
    }
  }

  /**
   Once a byte is offered, valid stays up until a tlast is taken, and the byte stays the same until
   it is taken, whatever the source and the sink do meanwhile.
   */
  lemma NoInterruption(s: State, run: seq<Inputs>, more: seq<Inputs>)
    requires Initial(s) && Offers(FromReset(s, run).s)
    ensures var v := FromReset(s, run);
            var w := After(v, more);
            && (Lasts(w.outs) == Lasts(v.outs) ==> Offers(w.s))
            && (w.outs == v.outs ==> Offers(w.s) && Dout(w.s) == Dout(v.s))
  {
    OfferHolds(FromReset(s, run), more);
  }

  lemma StepOffer(v: View, i: Inputs)
    requires Inv(v)
    ensures var w := Step(v, i);
            Inv(w) && Holds(v, w)
  {
    StepInv(v, i);
    EdgeFifo(v.s, i);
    EdgeSlots(v.s);
    LastsAppend(v.outs, Dout(v.s));
    var w := Step(v, i);
    if w.s.pending != 0 {
      assert Fifo(w.s) != [];
    }
    if Offers(v.s) && !Read(v.s, i) {
      assert Fifo(v.s)[0] == Dout(v.s) && Fifo(w.s)[0] == Dout(w.s);
    }
  }

  // ---- Stalling for good ----

  predicate Stuck(s: State)
    requires Shape(s)
  {
    !Ready(s) && !Offers(s)
  }

  /** The unfinished input frame is always inside the buffer, so it never exceeds the depth. */
  lemma TailInside(v: View)
    requires Inv(v)
    ensures |OpenTail(v.inp)| <= v.s.depth
    ensures |OpenTail(v.inp)| == v.s.depth <==> FillLevel(v.s) == v.s.depth && v.s.pending == 0
  {
    LastsConcat(v.outs, Fifo(v.s));
    TailIsShort(Fifo(v.s));
  }

  /**
   The buffer neither takes nor offers a byte exactly when depth bytes of one frame have come in
   without its tlast; frames of at most depth bytes never get there.
   */
  lemma StuckIff(s: State, run: seq<Inputs>)
    requires Initial(s)
    ensures var v := FromReset(s, run);
            |OpenTail(v.inp)| <= s.depth && (Stuck(v.s) <==> |OpenTail(v.inp)| == s.depth)
  {
    var v := FromReset(s, run);
    TailInside(v);
    if v.s.pending != 0 {
      assert Fifo(v.s) != [];
    }
  }

  /** And then no input ever changes anything again. */
  lemma {:induction false} StuckForever(v: View, run: seq<Inputs>)
    requires Inv(v) && Stuck(v.s)
    ensures After(v, run) == v
  {
    if run == [] {
    } else {
      StuckForever(v, run[..|run| - 1]);
    }
  }
}
