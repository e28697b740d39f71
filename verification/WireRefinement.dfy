/** The byte-level run refines the message-level run, and inherits how it ends. */
module WireRefinement {
  import opened Outcomes
  import opened SecsItem
  import opened Hsms
  import opened Transport
  import opened AssemblyRun
  import opened Lockstep
  import opened RunTheorems
  import opened WireRun

  /** The message-level state a byte-level state stands for. */
  predicate Refines(w: Wire, s: State)
  {
    && w.host == s.host && w.equip == s.equip
    && w.hostGone == s.hostGone && w.equipGone == s.equipGone
    && Carries(w.hostFrame, w.toHost, s.toHost)
    && Carries(w.equipFrame, w.toEquip, s.toEquip)
    && AllFrameable(s.host.out) && AllFrameable(s.equip.out)
  }

  /** On the grid, everything waiting to be written fits a frame. */
  lemma OutputsAreFrameable(c: Config, s: State, g: Grid)
    requires WellFormed(c) && Transmittable(c) && OnGrid(c, s, g)
    ensures AllFrameable(s.host.out) && AllFrameable(s.equip.out)
  {
    hide HostMsg, EquipMsg, HostGen, EquipGen, HostPcAt, EquipPcAt, Records, L, Diverges, Frameable, Transmittable;
    forall k | 0 <= k < |s.host.out| ensures Frameable(s.host.out[k]) { HostMsgIsFrameable(c, g.hw + k); }
    forall k | 0 <= k < |s.equip.out| ensures Frameable(s.equip.out[k]) { EquipMsgIsFrameable(c, g.ew + k); }
  }

  lemma SendRefines(c: Config, w: Wire, s: State, a: WireAction)
    requires WellFormed(c) && Refines(w, s) && WireCan(w, a) && (a.HostSends? || a.EquipSends?)
    ensures var b := if a.HostSends? then HostWrites else EquipWrites;
            Can(s, b) && Refines(WireDo(c, w, a), Do(c, s, b))
  {
    hide EncodeMessage, Carries, Frameable;
    if a.HostSends? {
      CarriesAfterSend(w.equipFrame, w.toEquip, s.toEquip, s.host.out[0]);
    } else {
      CarriesAfterSend(w.hostFrame, w.toHost, s.toHost, s.equip.out[0]);
    }
  }

  lemma TakeRefines(c: Config, w: Wire, s: State, a: WireAction)
    requires WellFormed(c) && Refines(w, s) && WireCan(w, a) && (a.HostTakes? || a.EquipTakes?)
    ensures Refines(WireDo(c, w, a), s)
  {
    hide Carries, CanTake, Frameable;
    if a.HostTakes? {
      CarriesAfterTake(w.hostFrame, w.toHost, s.toHost, a.n);
    } else {
      CarriesAfterTake(w.equipFrame, w.toEquip, s.toEquip, a.n);
    }
  }

  lemma HostDecodeRefines(c: Config, w: Wire, s: State)
    requires WellFormed(c) && Refines(w, s) && WireCan(w, HostDecodes)
    ensures Can(s, HostReads) && WireDo(c, w, HostDecodes).host == Do(c, s, HostReads).host
    ensures AllFrameable(Do(c, s, HostReads).host.out) ==> Refines(WireDo(c, w, HostDecodes), Do(c, s, HostReads))
  {
    hide Carries, Complete, Frameable, HostReceive, FrameFromBytes, Normalize;
    CompleteFrame(w.hostFrame, w.toHost, s.toHost);
  }

  lemma EquipDecodeRefines(c: Config, w: Wire, s: State)
    requires WellFormed(c) && Refines(w, s) && WireCan(w, EquipDecodes)
    ensures Can(s, EquipReads) && WireDo(c, w, EquipDecodes).equip == Do(c, s, EquipReads).equip
    ensures AllFrameable(Do(c, s, EquipReads).equip.out) ==> Refines(WireDo(c, w, EquipDecodes), Do(c, s, EquipReads))
  {
    hide Carries, Complete, Frameable, EquipReceive, FrameFromBytes, Normalize;
    CompleteFrame(w.equipFrame, w.toEquip, s.toEquip);
  }

  /** The message-level step behind a byte-level one, if there is one. */
  function Behind(a: WireAction): Option<Action>
  {
    match a
    case HostSends => Some(HostWrites)
    case HostTakes(_) => None
    case HostDecodes => Some(HostReads)
    case HostEnds => Some(HostHitsEof)
    case HostHangsUp => Some(HostDrops)
    case EquipSends => Some(EquipWrites)
    case EquipTakes(_) => None
    case EquipDecodes => Some(EquipReads)
    case EquipEnds => Some(EquipHitsEof)
    case EquipHangsUp => Some(EquipDrops)
  }

  lemma QuietRefines(c: Config, w: Wire, s: State, a: WireAction)
    requires WellFormed(c) && Refines(w, s) && WireCan(w, a)
    requires a.HostEnds? || a.EquipEnds? || a.HostHangsUp? || a.EquipHangsUp?
    ensures var b := Behind(a).value; Can(s, b) && Refines(WireDo(c, w, a), Do(c, s, b))
  {
    hide Carries, Complete, CanTake, Frameable, Encodable, HostReceive, EquipReceive, HostDecode, EquipDecode;
    ReaderProgress(w.hostFrame, w.toHost, s.toHost);
    ReaderProgress(w.equipFrame, w.toEquip, s.toEquip);
  }

  /** One byte-level step is one message-level step or, when it only takes bytes, none. */
  lemma {:induction false} WireStepRefines(c: Config, w: Wire, a: WireAction, s: State, g: Grid)
    requires WellFormed(c) && Transmittable(c) && Refines(w, s) && OnGrid(c, s, g) && WireCan(w, a)
    ensures match Behind(a)
            case None => Refines(WireDo(c, w, a), s)
            case Some(b) =>
              Can(s, b) && Refines(WireDo(c, w, a), Do(c, s, b)) && OnGrid(c, Do(c, s, b), Advance(g, b))
  {
    if Behind(a).None? {
      TakeRefines(c, w, s, a);
    } else {
      var b := Behind(a).value;
      if a.HostSends? || a.EquipSends? {
        SendRefines(c, w, s, a);
      } else if a.HostDecodes? {
        HostDecodeRefines(c, w, s);
      } else if a.EquipDecodes? {
        EquipDecodeRefines(c, w, s);
      } else {
        QuietRefines(c, w, s, a);
      }
      hide OnGrid, Measure, Refines, WireDo, WireCan, Can, Do;
      StepOnGrid(c, s, b, g);
      OutputsAreFrameable(c, Do(c, s, b), Advance(g, b));
    }
  }

  lemma ExtendRun(c: Config, run: seq<State>, w: Wire, a: WireAction) returns (run': seq<State>)
    requires WellFormed(c) && Transmittable(c) && IsRun(c, run) && Refines(w, run[|run| - 1]) && WireCan(w, a)
    ensures IsRun(c, run') && Refines(WireDo(c, w, a), run'[|run'| - 1])
  {
    hide Refines, OnGrid, Measure, Bound, WireDo, WireCan, Init, Can, Do, Advance;
    var s := run[|run| - 1];
    var g := RunOnGrid(c, run, |run| - 1);
    WireStepRefines(c, w, a, s, g);
    if Behind(a).Some? {
      assert Next(c, s, Do(c, s, Behind(a).value));
      RunGrows(c, run, Do(c, s, Behind(a).value));
      run' := run + [Do(c, s, Behind(a).value)];
    } else {
      run' := run;
    }
  }

  /** Every byte-level run follows a message-level run, in step with it at its last state. */
  lemma {:induction false} WireRunRefines(c: Config, trace: seq<Wire>, k: nat) returns (run: seq<State>)
    requires WellFormed(c) && Transmittable(c) && IsWireRun(c, trace) && k < |trace|
    ensures IsRun(c, run) && Refines(trace[k], run[|run| - 1])
  {
    if k == 0 {
      run := [Init()];
      InitRefines();
    } else {
      hide Refines, WireDo, WireCan;
      run := WireRunRefines(c, trace, k - 1);
      assert WireNext(c, trace[k - 1], trace[k]);
      var a :| WireCan(trace[k - 1], a) && trace[k] == WireDo(c, trace[k - 1], a);
      run := ExtendRun(c, run, trace[k - 1], a);
    }
  }

  lemma InitRefines()
    ensures Refines(WireInit(), Init())
  {
    assert Frames([]) == [];
    SelectIsFrameable();
  }

  lemma SelectIsFrameable()
    ensures AllFrameable(HostStart().out)
  {
  }

  lemma RunGrows(c: Config, run: seq<State>, s: State)
    requires WellFormed(c) && IsRun(c, run) && Next(c, run[|run| - 1], s)
    ensures IsRun(c, run + [s])
  {
    hide Next, Init;
  }

  // Whatever a side could do with messages it can begin to do with bytes.

  lemma HostCanRead(w: Wire, s: State)
    requires Refines(w, s)
    ensures Can(s, HostReads) ==> WireCan(w, HostDecodes) || WireCan(w, HostTakes(1))
    ensures Can(s, HostHitsEof) ==> WireCan(w, HostEnds)
  {
    ReaderProgress(w.hostFrame, w.toHost, s.toHost);
    assert !Complete([]);
    hide Carries, CanTake, Complete, Encodable;
  }

  lemma HostCanGo(w: Wire, s: State)
    requires Refines(w, s)
    ensures Can(s, HostWrites) ==> WireCan(w, HostSends)
    ensures Can(s, HostDrops) ==> WireCan(w, HostHangsUp)
  {
    hide Carries, CanTake, Complete, Encodable;
  }

  lemma EquipCanRead(w: Wire, s: State)
    requires Refines(w, s)
    ensures Can(s, EquipReads) ==> WireCan(w, EquipDecodes) || WireCan(w, EquipTakes(1))
    ensures Can(s, EquipHitsEof) ==> WireCan(w, EquipEnds)
  {
    assert !Complete([]);
    hide Carries, CanTake, Complete, Encodable;
    ReaderProgress(w.equipFrame, w.toEquip, s.toEquip);
  }

  lemma EquipCanGo(w: Wire, s: State)
    requires Refines(w, s)
    ensures Can(s, EquipWrites) ==> WireCan(w, EquipSends)
    ensures Can(s, EquipDrops) ==> WireCan(w, EquipHangsUp)
  {
    hide Carries, CanTake, Complete, Encodable;
  }

  /** A byte-level run that has stopped stands for a message-level run that has stopped. */
  lemma StuckRefines(w: Wire, s: State)
    requires Refines(w, s) && WireStuck(w)
    ensures Stuck(s)
  {
    HostCanRead(w, s);
    HostCanGo(w, s);
    EquipCanRead(w, s);
    EquipCanGo(w, s);
    hide Refines, Can, WireCan;
  }

  /** However the bytes are split and the sides interleave, a finished run ends the same way. */
  lemma {:induction false} WireRunEnds(c: Config, trace: seq<Wire>) returns (run: seq<State>)
    requires WellFormed(c) && Transmittable(c) && IsWireRun(c, trace) && WireStuck(trace[|trace| - 1])
    ensures IsRun(c, run) && Stuck(run[|run| - 1])
    ensures var w, s := trace[|trace| - 1], run[|run| - 1];
            && w.host == s.host && w.equip == s.equip && Ending(c, s)
            && (w.host.pc.HostDone? && w.equip.pc.EquipDone? <==> Matching(c))
  {
    run := WireRunRefines(c, trace, |trace| - 1);
    StuckRefines(trace[|trace| - 1], run[|run| - 1]);
    RunEnds(c, run);
    hide Ending, Matching, IsRun, Stuck;
  }

  // ---------- byte-level runs are bounded too ----------

  lemma HostScriptIsFrameable(c: Config, from: nat)
    requires Transmittable(c) && from <= HostTotal(c)
    ensures AllFrameable(HostMsgs(c, from, HostTotal(c)))
  {
    hide HostMsg, HostTotal, Frameable, Transmittable;
    var ms := HostMsgs(c, from, HostTotal(c));
    forall k | 0 <= k < |ms| ensures Frameable(ms[k]) { HostMsgIsFrameable(c, from + k); }
  }

  lemma EquipScriptIsFrameable(c: Config, from: nat)
    requires WellFormed(c) && Transmittable(c) && from <= EquipTotal(c)
    ensures AllFrameable(EquipMsgs(c, from, EquipTotal(c)))
  {
    hide EquipMsg, EquipTotal, Frameable, Transmittable;
    var ms := EquipMsgs(c, from, EquipTotal(c));
    forall k | 0 <= k < |ms| ensures Frameable(ms[k]) { EquipMsgIsFrameable(c, from + k); }
  }

  /** Bytes still to be taken: those in the pipes and those of every message not yet written. */
  function BytesLeft(c: Config, w: Wire, g: Grid): nat
    requires WellFormed(c) && Transmittable(c) && InBounds(c, g)
  {
    HostScriptIsFrameable(c, g.hw);
    EquipScriptIsFrameable(c, g.ew);
    |w.toHost| + |w.toEquip| + |Frames(HostMsgs(c, g.hw, HostTotal(c)))| + |Frames(EquipMsgs(c, g.ew, EquipTotal(c)))|
  }

  lemma FirstFrame(ms: seq<Message>)
    requires AllFrameable(ms) && ms != []
    ensures |Frames(ms)| == |EncodeMessage(ms[0])| + |Frames(ms[1..])|
  {
  }

  lemma SendKeepsBytes(c: Config, w: Wire, a: WireAction, s: State, g: Grid)
    requires WellFormed(c) && Transmittable(c) && Refines(w, s) && OnGrid(c, s, g) && WireCan(w, a)
    requires a.HostSends? || a.EquipSends?
    requires InBounds(c, Advance(g, Behind(a).value))
    ensures BytesLeft(c, WireDo(c, w, a), Advance(g, Behind(a).value)) == BytesLeft(c, w, g)
  {
    hide HostMsg, EquipMsg, HostMsgs, EquipMsgs, HostTotal, EquipTotal, HostGen, EquipGen, Frameable, EncodeMessage,
         Frames, Carries, HostPcAt, EquipPcAt, Records, HostNextSbAt, Transmittable;
    if a.HostSends? {
      HostScriptIsFrameable(c, g.hw);
      HostMsgsSlide(c, g.hw, HostTotal(c));
      HostMsgsSlide(c, g.hw, HostGen(c, g.hr));
      FirstFrame(HostMsgs(c, g.hw, HostTotal(c)));
    } else {
      EquipScriptIsFrameable(c, g.ew);
      EquipMsgsSlide(c, g.ew, EquipTotal(c));
      EquipMsgsSlide(c, g.ew, EquipGen(c, g.er));
      FirstFrame(EquipMsgs(c, g.ew, EquipTotal(c)));
    }
  }

  /** Every byte-level step uses up a message step or some bytes, and gives neither back. */
  lemma {:induction false} WireStepUsesWork(c: Config, w: Wire, a: WireAction, s: State, g: Grid)
    requires WellFormed(c) && Transmittable(c) && Refines(w, s) && OnGrid(c, s, g) && WireCan(w, a)
    ensures match Behind(a)
            case None => BytesLeft(c, WireDo(c, w, a), g) < BytesLeft(c, w, g)
            case Some(b) =>
              InBounds(c, Advance(g, b)) && Can(s, b)
              && Measure(c, Do(c, s, b), Advance(g, b)) < Measure(c, s, g)
              && BytesLeft(c, WireDo(c, w, a), Advance(g, b)) == BytesLeft(c, w, g)
  {
    hide HostMsg, EquipMsg, HostMsgs, EquipMsgs, HostTotal, EquipTotal, HostGen, EquipGen, Frameable, EncodeMessage,
         Frames, Carries, HostFits, EquipFits, Transmittable, Measure, HostDecode, EquipDecode, Do;
    WireStepRefines(c, w, a, s, g);
    if Behind(a).Some? {
      StepOnGrid(c, s, Behind(a).value, g);
      if a.HostSends? || a.EquipSends? {
        SendKeepsBytes(c, w, a, s, g);
      }
    }
  }

  /** The longest a byte-level run can be. */
  function WireBound(c: Config): nat
    requires WellFormed(c) && Transmittable(c)
  {
    Bound(c) + BytesLeft(c, WireInit(), Grid(0, 0, 0, 0))
  }

  lemma {:induction false} WireRunProgress(c: Config, trace: seq<Wire>, k: nat) returns (s: State, g: Grid)
    requires WellFormed(c) && Transmittable(c) && IsWireRun(c, trace) && k < |trace|
    ensures Refines(trace[k], s) && OnGrid(c, s, g)
    ensures Measure(c, s, g) + BytesLeft(c, trace[k], g) + k <= WireBound(c)
  {
    if k == 0 {
      InitRefines();
      InitOnGrid(c);
      s, g := Init(), Grid(0, 0, 0, 0);
      hide Refines, OnGrid, Measure, BytesLeft, Init, WireInit;
    } else {
      hide Refines, OnGrid, Measure, BytesLeft, WireDo, WireCan, Advance, Do, Can, WireBound, InBounds;
      var s0, g0 := WireRunProgress(c, trace, k - 1);
      assert WireNext(c, trace[k - 1], trace[k]);
      var a :| WireCan(trace[k - 1], a) && trace[k] == WireDo(c, trace[k - 1], a);
      WireStepRefines(c, trace[k - 1], a, s0, g0);
      WireStepUsesWork(c, trace[k - 1], a, s0, g0);
      if Behind(a).Some? {
        s, g := Do(c, s0, Behind(a).value), Advance(g0, Behind(a).value);
      } else {
        s, g := s0, g0;
      }
    }
  }

  /** No byte-level run goes on forever either. */
  lemma WireRunsAreBounded(c: Config, trace: seq<Wire>)
    requires WellFormed(c) && Transmittable(c) && IsWireRun(c, trace)
    ensures |trace| <= WireBound(c) + 1
  {
    var s, g := WireRunProgress(c, trace, |trace| - 1);
  }
}
