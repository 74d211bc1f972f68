/** Frames inside a beat stream: what the gate is asked to forward, said without the gate. */
module Frames {
  import opened FrameGate

  /** The frames a stream has completed and the beats of the unfinished one. */
  datatype Parsed = Parsed(frames: seq<seq<Beat>>, part: seq<Beat>)

  function Split(inp: seq<Beat>): Parsed {
    if inp == [] then Parsed([], [])
    else
      var n := |inp| - 1;
      var p := Split(inp[..n]);
      if inp[n].last then Parsed(p.frames + [p.part + [inp[n]]], []) else Parsed(p.frames, p.part + [inp[n]])
  }

  function Concat(fs: seq<seq<Beat>>): seq<Beat> {
    if fs == [] then [] else Concat(fs[..|fs| - 1]) + fs[|fs| - 1]
  }

  predicate Open(part: seq<Beat>) {
    forall k :: 0 <= k < |part| ==> !part[k].last
  }

  /** Nonempty, with tlast on the final beat and on no other. */
  predicate Frame(f: seq<Beat>) {
    f != [] && f[|f| - 1].last && Open(f[..|f| - 1])
  }

  predicate AllFrames(fs: seq<seq<Beat>>) {
    forall k :: 0 <= k < |fs| ==> Frame(fs[k])
  }

  predicate Cut(inp: seq<Beat>, fs: seq<seq<Beat>>, part: seq<Beat>) {
    AllFrames(fs) && Open(part) && Concat(fs) + part == inp
  }

  /** One more beat, without a tlast and with one. */
  lemma CutMore(inp: seq<Beat>, fs: seq<seq<Beat>>, part: seq<Beat>, b: Beat)
    requires Cut(inp, fs, part) && !b.last
    ensures Cut(inp + [b], fs, part + [b])
  {
    assert Concat(fs) + (part + [b]) == Concat(fs) + part + [b];
  }

  lemma CutFrame(inp: seq<Beat>, fs: seq<seq<Beat>>, part: seq<Beat>, b: Beat)
    requires Cut(inp, fs, part) && b.last
    ensures Cut(inp + [b], fs + [part + [b]], [])
  {
    var f := part + [b];
    assert f[..|f| - 1] == part && Frame(f);
    ConcatAppend(fs, f);
    assert Concat(fs) + f + [] == Concat(fs) + part + [b];
  }

  lemma {:induction false} SplitCuts(inp: seq<Beat>)
    ensures Cut(inp, Split(inp).frames, Split(inp).part)
  {
    if inp == [] {
    } else {
      var n := |inp| - 1;
      SplitCuts(inp[..n]);
      var p, b := Split(inp[..n]), inp[n];
      assert inp == inp[..n] + [b];
      if b.last {
        CutFrame(inp[..n], p.frames, p.part, b);
      } else {
        CutMore(inp[..n], p.frames, p.part, b);
      }
    }
  }

  /** The last beat of a cut stream, taken off the rest or off the last frame. */
  lemma CutLess(inp: seq<Beat>, fs: seq<seq<Beat>>, part: seq<Beat>)
    requires Cut(inp, fs, part) && part != []
    ensures inp != [] && Cut(inp[..|inp| - 1], fs, part[..|part| - 1]) && inp[|inp| - 1] == part[|part| - 1]
  {
    assert inp[..|inp| - 1] == Concat(fs) + part[..|part| - 1];
  }

  lemma CutUnframed(inp: seq<Beat>, fs: seq<seq<Beat>>)
    requires Cut(inp, fs, []) && fs != []
    ensures var l := |fs| - 1;
            var m := |fs[l]| - 1;
            && inp != [] && m >= 0 && inp[|inp| - 1] == fs[l][m]
            && Cut(inp[..|inp| - 1], fs[..l], fs[l][..m])
  {
    var l := |fs| - 1;
    assert inp == Concat(fs[..l]) + fs[l];
    assert inp[..|inp| - 1] == Concat(fs[..l]) + fs[l][..|fs[l]| - 1];
  }

  lemma {:induction false} CutIsSplit(inp: seq<Beat>, fs: seq<seq<Beat>>, part: seq<Beat>)
    requires Cut(inp, fs, part)
    ensures Split(inp) == Parsed(fs, part)
    decreases |inp|
  {
    if part != [] {
      var m := |part| - 1;
      CutLess(inp, fs, part);
      CutIsSplit(inp[..|inp| - 1], fs, part[..m]);
      assert part[..m] + [part[m]] == part;
    } else if fs != [] {
      var l := |fs| - 1;
      var m := |fs[l]| - 1;
      CutUnframed(inp, fs);
      CutIsSplit(inp[..|inp| - 1], fs[..l], fs[l][..m]);
      assert fs[l][..m] + [fs[l][m]] == fs[l] && fs[..l] + [fs[l]] == fs;
    } else {
      assert inp == [];
    }
  }

  /** Split finds the one way to cut the stream into frames and an unfinished rest. */
  lemma SplitUnique(inp: seq<Beat>, fs: seq<seq<Beat>>, part: seq<Beat>)
    ensures Split(inp) == Parsed(fs, part) <==> Cut(inp, fs, part)
  {
    SplitCuts(inp);
    if Cut(inp, fs, part) {
      CutIsSplit(inp, fs, part);
    }
  }

  predicate HasError(f: seq<Beat>) {
    exists k :: 0 <= k < |f| && f[k].error
  }

  datatype Verdict = Forward | Bad | Overflow

  /** What becomes of a frame that has arrived whole. */
  function Judge(f: seq<Beat>, depth: nat): Verdict {
    if |f| > depth then Overflow else if HasError(f) then Bad else Forward
  }

  /** The frames of one verdict, in order. */
  function Pick(fs: seq<seq<Beat>>, v: Verdict, depth: nat): seq<seq<Beat>> {
    if fs == [] then []
    else
      var n := |fs| - 1;
      var rest := Pick(fs[..n], v, depth);
      if Judge(fs[n], depth) == v then rest + [fs[n]] else rest
  }

  /** The frames a gate of this depth forwards. */
  function Kept(inp: seq<Beat>, depth: nat): seq<seq<Beat>> {
    Pick(Split(inp).frames, Forward, depth)
  }

  lemma {:induction false} PickMembers(fs: seq<seq<Beat>>, v: Verdict, depth: nat)
    ensures forall f :: f in Pick(fs, v, depth) <==> f in fs && Judge(f, depth) == v
  {
    if fs == [] {
    } else {
      var n := |fs| - 1;
      PickMembers(fs[..n], v, depth);
      assert fs == fs[..n] + [fs[n]];
    }
  }

  lemma {:induction false} PickPartitions(fs: seq<seq<Beat>>, depth: nat)
    ensures |Pick(fs, Forward, depth)| + |Pick(fs, Bad, depth)| + |Pick(fs, Overflow, depth)| == |fs|
  {
    if fs == [] {
    } else {
      PickPartitions(fs[..|fs| - 1], depth);
    }
  }

  lemma PickAppend(fs: seq<seq<Beat>>, f: seq<Beat>, v: Verdict, depth: nat)
    ensures Pick(fs + [f], v, depth) == if Judge(f, depth) == v then Pick(fs, v, depth) + [f] else Pick(fs, v, depth)
  {
  }

  lemma ConcatAppend(fs: seq<seq<Beat>>, f: seq<Beat>)
    ensures Concat(fs + [f]) == Concat(fs) + f
  {
  }

  lemma {:induction false} ConcatPrefix(fs: seq<seq<Beat>>, k: nat)
    requires k <= |fs|
    ensures Concat(fs[..k]) <= Concat(fs)
  {
    if k < |fs| {
      var n := |fs| - 1;
      ConcatPrefix(fs[..n], k);
      assert fs[..n][..k] == fs[..k];
    } else {
      assert fs[..k] == fs;
    }
  }

  /** Cycles the drain takes for frames that meet no backpressure. */
  function Cost(fs: seq<seq<Beat>>): nat {
    if fs == [] then 0 else Cost(fs[..|fs| - 1]) + 2 * |fs[|fs| - 1]| + 1
  }
}
