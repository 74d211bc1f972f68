/** The frame gate as it is written: registers and frame RAM, updated in place on each clock edge. */
module FrameGateRtl {
  import opened Modular
  import opened FrameGate

  class Registers {
    const cfg: Config
    var fill: Fill
    var drain: Drain
    var fullCount: nat
    const slotLen: array<nat>
    const mem: array2<Beat>

    ghost predicate Valid()
      reads this, slotLen, mem
    {
      && cfg.Legal()
      && slotLen.Length == mem.Length0 == cfg.slots && mem.Length1 == cfg.depth
      && fill.slot < cfg.slots && drain.slot < cfg.slots && fill.wrPtr < cfg.depth
    }

    ghost function Row(k: nat): seq<Beat>
      requires k < mem.Length0
      reads mem
    {
      seq(mem.Length1, j requires 0 <= j < mem.Length1 reads mem => mem[k, j])
    }

    ghost function Rows(): seq<seq<Beat>>
      reads mem
    {
      seq(mem.Length0, k requires 0 <= k < mem.Length0 reads mem => Row(k))
    }

    ghost function State(): Gate
      reads this, slotLen, mem
    {
      Gate(cfg, fill, drain, fullCount, slotLen[..], Rows())
    }

    constructor (config: Config, ram: Beat)
      requires config.Legal()
      ensures Valid() && Initial(State()) && State().cfg == config
      ensures fresh(slotLen) && fresh(mem)
    {
      cfg := config;
      fill := Fill(false, 0, 0, false, 0, 0, 0);
      drain := Drain(false, 0, 0, 0, false, ram, false, Beat(0, false, false, false), 0, 0,
                     Stats(0, 0, 0, 0, 0, 0, 0, 0, 0, 0, 0));
      fullCount := 0;
      slotLen := new nat[config.slots](_ => 0);
      mem := new Beat[config.slots, config.depth]((_, _) => ram);
      new;
      assert slotLen[..] == seq(cfg.slots, k => 0);
    }

    /** One clock of the frame RAM: a read returns what was there before the write. */
    method ClockRam(i: Inputs, write: bool, read: bool) returns (dout: Beat)
      requires Valid()
      modifies mem
      ensures Rows() == if write then old(Rows())[fill.slot := old(Row(fill.slot))[fill.wrPtr := i.beat]]
                        else old(Rows())
      ensures dout == if read then old(Row(drain.slot))[drain.rdCount % cfg.depth] else drain.ramOut
    {
      dout := if read then mem[drain.slot, drain.rdCount % cfg.depth] else drain.ramOut;
      if write {
        mem[fill.slot, fill.wrPtr] := i.beat;
      }
      ghost var was := old(Rows());
      ghost var rows := if write then was[fill.slot := was[fill.slot][fill.wrPtr := i.beat]] else was;
      forall k | 0 <= k < cfg.slots ensures Rows()[k] == rows[k] {
        assert Row(k) == rows[k];
      }
      assert Rows() == rows;
    }

    /** The input side of the edge that leaves state g. */
    method ClockFill(ghost g: Gate, i: Inputs, accept: bool, overflow: bool) returns (inc: bool)
      requires Valid() && g.cfg == cfg && g.fill == fill && g.slotLen == slotLen[..]
      requires accept == InputAccept(g, i) && overflow == WriteOverflow(g, i)
      modifies this`fill, slotLen
      ensures fill == FillEdge(g, i) && slotLen[..] == LenEdge(g, i) && inc == Commit(g, i)
      ensures Valid()
    {
      inc := false;
      if fill.drop {
        if accept && i.beat.last {
          fill := fill.(drop := false, wrPtr := 0, bad := false);
        }
      } else if accept {
        var bad := fill.bad;
        fill := fill.(bad := bad || i.beat.error || overflow);
        if overflow {
          fill := fill.(drop := true, overflow := Count(fill.overflow, 1));
        } else if i.beat.last {
          if bad || i.beat.error {
            fill := fill.(dropped := Count(fill.dropped, 1));
          } else {
            slotLen[fill.slot] := fill.wrPtr + 1;
            inc := true;
            fill := fill.(slot := NextSlot(fill.slot, cfg), good := Count(fill.good, 1));
          }
          fill := fill.(wrPtr := 0, bad := false);
        } else {
          fill := fill.(wrPtr := (fill.wrPtr + 1) % cfg.depth);
        }
      }
    }

    /** The statistics of the frame whose last beat is accepted. */
    method TakeSample(was: Drain)
      requires drain.stats == was.stats
      modifies this`drain
      ensures drain == old(drain).(stats := Sample(was))
    {
      var total := was.cycles + 1;
      var s := drain.stats;
      s := s.(samples := Count(s.samples, 1), total := Count(s.total, total));
      var c := total % WORD;
      if c > s.max {
        s := s.(max := c);
      }
      if was.low > s.lowMax {
        s := s.(lowMax := was.low);
      }
      if c < 5000 {
        s := s.(lt50 := Count(s.lt50, 1));
      } else if c < 10000 {
        s := s.(lt100 := Count(s.lt100, 1));
      } else if c < 20000 {
        s := s.(lt200 := Count(s.lt200, 1));
      } else if c < 50000 {
        s := s.(lt500 := Count(s.lt500, 1));
      } else {
        s := s.(ge500 := Count(s.ge500, 1));
      }
      drain := drain.(stats := s);
    }

    /** The output side of the edge that leaves state g; dout is the RAM output after it. */
    method ClockDrain(ghost g: Gate, i: Inputs, dout: Beat, finish: bool, read: bool) returns (dec: bool)
      requires Valid() && g.cfg == cfg && g.slotLen == slotLen[..] && g.fullCount == fullCount
      requires g.drain == drain && |g.mem| == cfg.slots && |g.mem[drain.slot]| == cfg.depth
      requires finish == FinishDrain(g, i) && read == RamRead(g, i)
      requires dout == if read then g.mem[drain.slot][drain.rdCount % cfg.depth] else drain.ramOut
      modifies this`drain
      ensures drain == DrainEdge(g, i) && dec == (g.drain.active && finish)
      ensures Valid()
    {
      var was := drain;
      dec := false;
      if was.active {
        drain := drain.(cycles := Count(was.cycles, 1));
        if was.valid && !i.ready {
          var s := drain.stats;
          drain := drain.(low := Count(was.low, 1),
                          stats := s.(low := Count(s.low, 1), lowSamples := Count(s.lowSamples, 1)));
        }
      }
      if !was.active && fullCount != 0 {
        drain := drain.(active := true, len := slotLen[was.slot], rdCount := 0, cycles := 0, low := 0,
                        pending := false, valid := false, out := was.out.(last := false, sof := false));
      } else if was.active {
        if finish {
          drain := drain.(valid := false, out := was.out.(last := false, sof := false), active := false,
                          pending := false, slot := NextSlot(was.slot, cfg));
          dec := true;
          TakeSample(was);
        } else {
          if was.valid && i.ready {
            drain := drain.(valid := false);
          }
          if was.pending {
            drain := drain.(out := was.ramOut, valid := true, pending := false);
          }
          if read {
            drain := drain.(pending := true, rdCount := (was.rdCount + 1) % (2 * cfg.depth));
          }
        }
      } else {
        drain := drain.(valid := false, out := was.out.(last := false, sof := false));
      }
      drain := drain.(ramOut := dout);
    }

    method ClockCount(ghost g: Gate, i: Inputs, inc: bool, dec: bool)
      requires g.cfg == cfg && g.fullCount == fullCount
      requires inc == Commit(g, i) && dec == (g.drain.active && FinishDrain(g, i))
      modifies this`fullCount
      ensures fullCount == CountEdge(g, i)
    {
      if inc && !dec {
        fullCount := (fullCount + 1) % (2 * cfg.SlotRange());
      } else if dec && !inc {
        fullCount := if fullCount > 0 then fullCount - 1 else 2 * cfg.SlotRange() - 1;
      }
    }

    /** The wires, as they stand before the edge. */
    method Wires(i: Inputs) returns (accept: bool, overflow: bool, finish: bool, read: bool)
      requires Valid()
      ensures Shape(State())
      ensures accept == InputAccept(State(), i) && overflow == WriteOverflow(State(), i)
      ensures finish == FinishDrain(State(), i) && read == RamRead(State(), i)
      ensures (accept && !fill.drop) == RamWrite(State(), i)
    {
      accept := i.valid && (fill.drop || fullCount < cfg.slots);
      overflow := accept && fill.wrPtr == cfg.depth - 1 && !i.beat.last;
      finish := drain.valid && i.ready && drain.out.last;
      read := drain.active && !finish && (!drain.valid || i.ready) && !drain.pending && drain.rdCount < drain.len;
    }

    /** The two machines on one edge, from the wires sampled before it. */
    method ClockMachines(ghost g: Gate, i: Inputs, dout: Beat, accept: bool, overflow: bool, finish: bool, read: bool)
      requires Valid() && g.cfg == cfg && g.fill == fill && g.drain == drain
      requires g.slotLen == slotLen[..] && g.fullCount == fullCount
      requires |g.mem| == cfg.slots && |g.mem[drain.slot]| == cfg.depth
      requires accept == InputAccept(g, i) && overflow == WriteOverflow(g, i)
      requires finish == FinishDrain(g, i) && read == RamRead(g, i)
      requires dout == if read then g.mem[drain.slot][drain.rdCount % cfg.depth] else drain.ramOut
      modifies this, slotLen
      ensures Valid() && fill == FillEdge(g, i) && drain == DrainEdge(g, i)
      ensures slotLen[..] == LenEdge(g, i) && fullCount == CountEdge(g, i)
    {
      var dec := ClockDrain(g, i, dout, finish, read);
      var inc := ClockFill(g, i, accept, overflow);
      ClockCount(g, i, inc, dec);
    }

    /** One clock edge: every wire is sampled before any register changes. */
    method Clock(i: Inputs)
      requires Valid()
      modifies this, mem, slotLen
      ensures Valid() && old(Shape(State())) && State() == Edge(old(State()), i)
    {
      ghost var g := State();
      var accept, overflow, finish, read := Wires(i);
      var dout := ClockRam(i, accept && !fill.drop, read);
      assert Rows() == MemEdge(g, i);
      ClockMachines(g, i, dout, accept, overflow, finish, read);
    }
  }
}
