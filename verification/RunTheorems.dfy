/** What holds of every interleaving of a placement run, and how every run ends. */
module RunTheorems {
  import opened Bytes
  import opened Hsms
  import opened Gem
  import opened AssemblyRun
  import opened Lockstep

  /** Messages written and read by the host (hw, hr) and by the equipment (ew, er). */
  datatype Grid = Grid(hw: nat, hr: nat, ew: nat, er: nat)

  predicate InBounds(c: Config, g: Grid)
  {
    && g.hr <= g.ew <= EquipGen(c, g.er) && g.er <= EquipTotal(c)
    && g.er <= g.hw <= HostGen(c, g.hr)
  }

  /** The host, if it failed, failed because the equipment finished and hung up on it. */
  predicate HostFits(c: Config, s: State, g: Grid)
    requires WellFormed(c) && InBounds(c, g)
  {
    && s.host.(pc := HostPcAt(c, g.hr)) == HostAt(c, g.hr, HostMsgs(c, g.hw, HostGen(c, g.hr)))
    && (s.host.pc == HostPcAt(c, g.hr)
        || (s.host.pc == HostFailed && g.hr == EquipTotal(c) && HostWaits(HostPcAt(c, g.hr))
            && s.equipGone && !EquipWaits(EquipPcAt(c, g.er))))
    && (s.hostGone ==> s.host.out == [] && !HostWaits(s.host.pc))
  }

  predicate EquipFits(c: Config, s: State, g: Grid)
    requires WellFormed(c) && InBounds(c, g)
  {
    && s.equip.(pc := EquipPcAt(c, g.er)) == EquipAt(c, g.er, EquipMsgs(c, g.ew, EquipGen(c, g.er)))
    && (s.equip.pc == EquipPcAt(c, g.er)
        || (s.equip.pc == EquipFailed && g.er == HostTotal(c) && EquipWaits(EquipPcAt(c, g.er))
            && s.hostGone && HostPcAt(c, g.hr).HostDone?))
    && (s.equipGone ==> s.equip.out == [] && !EquipWaits(s.equip.pc))
  }

  /** The invariant: four counters determine the state, but for which sides have hung up. */
  predicate OnGrid(c: Config, s: State, g: Grid)
    requires WellFormed(c)
  {
    && InBounds(c, g)
    && s.toEquip == HostMsgs(c, g.er, g.hw)
    && s.toHost == EquipMsgs(c, g.hr, g.ew)
    && HostFits(c, s, g) && EquipFits(c, s, g)
  }

  /** Work left: messages to be written and read, and hang-ups and failures still possible. */
  function Measure(c: Config, s: State, g: Grid): nat
    requires InBounds(c, g)
  {
    (HostTotal(c) - g.hw) + (EquipTotal(c) - g.ew) + (EquipTotal(c) - g.hr) + (HostTotal(c) - g.er)
    + (if s.hostGone then 0 else 1) + (if s.equipGone then 0 else 1)
    + (if s.host.pc.HostFailed? then 0 else 1) + (if s.equip.pc.EquipFailed? then 0 else 1)
  }

  /** The longest any run can be. */
  function Bound(c: Config): nat { 2 * HostTotal(c) + 2 * EquipTotal(c) + 4 }

  lemma InitOnGrid(c: Config)
    requires WellFormed(c)
    ensures OnGrid(c, Init(), Grid(0, 0, 0, 0))
    ensures Measure(c, Init(), Grid(0, 0, 0, 0)) <= Bound(c)
  {
    assert HostMsgs(c, 0, 1) == [SelectReq(1)];
    assert Records(c, 0) == [];
  }

  /** Dropping and extending a stretch of a script. */
  lemma HostMsgsSlide(c: Config, from: nat, to: nat)
    requires from < to <= HostTotal(c)
    ensures HostMsgs(c, from, to)[0] == HostMsg(c, from)
    ensures HostMsgs(c, from, to)[1..] == HostMsgs(c, from + 1, to)
    ensures HostMsgs(c, from, to - 1) + [HostMsg(c, to - 1)] == HostMsgs(c, from, to)
  {
    hide HostMsg, HostTotal;
  }

  lemma EquipMsgsSlide(c: Config, from: nat, to: nat)
    requires WellFormed(c) && from < to <= EquipTotal(c)
    ensures EquipMsgs(c, from, to)[0] == EquipMsg(c, from)
    ensures EquipMsgs(c, from, to)[1..] == EquipMsgs(c, from + 1, to)
    ensures EquipMsgs(c, from, to - 1) + [EquipMsg(c, to - 1)] == EquipMsgs(c, from, to)
  {
    hide EquipMsg, EquipTotal;
  }

  lemma GenMonotone(c: Config, r: nat)
    ensures HostGen(c, r) <= HostGen(c, r + 1) && EquipGen(c, r) <= EquipGen(c, r + 1)
  {
  }

  lemma HostWritesStep(c: Config, s: State, g: Grid)
    requires WellFormed(c) && OnGrid(c, s, g) && Can(s, HostWrites)
    ensures OnGrid(c, Do(c, s, HostWrites), g.(hw := g.hw + 1))
  {
    hide HostMsg, EquipMsg, HostMsgs, EquipMsgs, HostGen, EquipGen, HostPcAt, EquipPcAt, HostNextSbAt, Records, L, Diverges;
    HostMsgsSlide(c, g.hw, HostGen(c, g.hr));
    HostMsgsSlide(c, g.er, g.hw + 1);
  }

  lemma EquipWritesStep(c: Config, s: State, g: Grid)
    requires WellFormed(c) && OnGrid(c, s, g) && Can(s, EquipWrites)
    ensures OnGrid(c, Do(c, s, EquipWrites), g.(ew := g.ew + 1))
  {
    hide HostMsg, EquipMsg, HostMsgs, EquipMsgs, HostGen, EquipGen, HostPcAt, EquipPcAt, HostNextSbAt, Records, L, Diverges;
    EquipMsgsSlide(c, g.ew, EquipGen(c, g.er));
    EquipMsgsSlide(c, g.hr, g.ew + 1);
  }

  lemma HostReadsStep(c: Config, s: State, g: Grid)
    requires WellFormed(c) && OnGrid(c, s, g) && Can(s, HostReads)
    ensures OnGrid(c, Do(c, s, HostReads), g.(hr := g.hr + 1))
  {
    hide HostMsg, EquipMsg, HostMsgs, EquipMsgs, EquipGen, HostPcAt, EquipPcAt, HostNextSbAt, Records, HostReceive,
         Normalize, L, Diverges;
    EquipMsgsSlide(c, g.hr, g.ew);
    HostStep(c, g.hr);
    GenMonotone(c, g.hr);
    assert g.hw == HostGen(c, g.hr);
  }

  lemma EquipReadsStep(c: Config, s: State, g: Grid)
    requires WellFormed(c) && OnGrid(c, s, g) && Can(s, EquipReads)
    ensures OnGrid(c, Do(c, s, EquipReads), g.(er := g.er + 1))
  {
    hide HostMsg, EquipMsg, HostMsgs, EquipMsgs, HostGen, HostPcAt, EquipPcAt, HostNextSbAt, Records, EquipReceive,
         Normalize, L, Diverges;
    HostMsgsSlide(c, g.er, g.hw);
    EquipStep(c, g.er);
    GenMonotone(c, g.er);
    assert g.ew == EquipGen(c, g.er);
  }

  /** When a side has hung up, it has said everything it ever will. */
  lemma GoneMeansSaid(c: Config, s: State, g: Grid)
    requires WellFormed(c) && OnGrid(c, s, g)
    ensures s.hostGone ==> g.hw == HostTotal(c)
    ensures s.equipGone ==> g.ew == EquipTotal(c)
  {
    hide HostMsg, EquipMsg, Records, HostNextSbAt;
  }

  lemma HostEofStep(c: Config, s: State, g: Grid)
    requires WellFormed(c) && OnGrid(c, s, g) && Can(s, HostHitsEof)
    ensures OnGrid(c, Do(c, s, HostHitsEof), g) && !s.host.pc.HostFailed?
  {
    hide HostMsg, EquipMsg, HostMsgs, EquipMsgs, HostGen, EquipGen, HostNextSbAt, Records, L, Diverges;
    GoneMeansSaid(c, s, g);
  }

  lemma EquipEofStep(c: Config, s: State, g: Grid)
    requires WellFormed(c) && OnGrid(c, s, g) && Can(s, EquipHitsEof)
    ensures OnGrid(c, Do(c, s, EquipHitsEof), g) && !s.equip.pc.EquipFailed?
  {
    hide HostMsg, EquipMsg, HostMsgs, EquipMsgs, HostGen, EquipGen, HostNextSbAt, Records, L, Diverges;
    GoneMeansSaid(c, s, g);
  }

  lemma DropStep(c: Config, s: State, g: Grid, a: Action)
    requires WellFormed(c) && OnGrid(c, s, g) && Can(s, a) && (a.HostDrops? || a.EquipDrops?)
    ensures OnGrid(c, Do(c, s, a), g)
  {
    hide HostMsg, EquipMsg, HostMsgs, EquipMsgs, HostGen, EquipGen, HostPcAt, EquipPcAt, HostNextSbAt, Records, L, Diverges;
  }

  /** Which counter a step moves. */
  function Advance(g: Grid, a: Action): Grid
  {
    match a
    case HostWrites => g.(hw := g.hw + 1)
    case HostReads => g.(hr := g.hr + 1)
    case EquipWrites => g.(ew := g.ew + 1)
    case EquipReads => g.(er := g.er + 1)
    case _ => g
  }

  /** Every atomic step keeps the invariant and uses up some of the remaining work. */
  lemma {:induction false} StepOnGrid(c: Config, s: State, a: Action, g: Grid)
    requires WellFormed(c) && OnGrid(c, s, g) && Can(s, a)
    ensures OnGrid(c, Do(c, s, a), Advance(g, a))
    ensures Measure(c, Do(c, s, a), Advance(g, a)) < Measure(c, s, g)
  {
    hide HostMsg, EquipMsg, HostMsgs, EquipMsgs, HostGen, EquipGen, HostPcAt, EquipPcAt, HostNextSbAt, Records,
         HostReceive, EquipReceive, Normalize, HostTotal, EquipTotal, L, Diverges;
    match a
    case HostWrites => HostWritesStep(c, s, g);
    case HostReads => HostReadsStep(c, s, g);
    case HostHitsEof => HostEofStep(c, s, g);
    case HostDrops => DropStep(c, s, g, a);
    case EquipWrites => EquipWritesStep(c, s, g);
    case EquipReads => EquipReadsStep(c, s, g);
    case EquipHitsEof => EquipEofStep(c, s, g);
    case EquipDrops => DropStep(c, s, g, a);
  }

  // ---------- whole runs ----------

  /** Every state of every interleaving is on the grid, and `k` steps have used up `k` units of work. */
  lemma {:induction false} RunOnGrid(c: Config, trace: seq<State>, k: nat) returns (g: Grid)
    requires WellFormed(c) && IsRun(c, trace) && k < |trace|
    ensures OnGrid(c, trace[k], g)
    ensures Measure(c, trace[k], g) + k <= Bound(c)
  {
    hide OnGrid, Measure, Bound, Init, Do, Can, Advance;
    if k == 0 {
      InitOnGrid(c);
      g := Grid(0, 0, 0, 0);
    } else {
      var before := RunOnGrid(c, trace, k - 1);
      assert Next(c, trace[k - 1], trace[k]);
      var a :| Can(trace[k - 1], a) && trace[k] == Do(c, trace[k - 1], a);
      StepOnGrid(c, trace[k - 1], a, before);
      g := Advance(before, a);
    }
  }

  /** No run goes on forever. */
  lemma RunsAreBounded(c: Config, trace: seq<State>)
    requires WellFormed(c) && IsRun(c, trace)
    ensures |trace| <= Bound(c) + 1
  {
    var g := RunOnGrid(c, trace, |trace| - 1);
    hide OnGrid, Bound, IsRun;
  }

  /** The secondary a side is waiting for: its system bytes, its function, and no W-bit. */
  predicate IsSecondary(m: Message, sb: u32, f: byte)
  {
    m.Data? && !m.wBit && m.systemBytes == sb && m.function_ == f && f < 128
  }

  /**
   Matching on system bytes alone is enough: whenever a side waits for a reply, the next message
   in its queue, if there is one, is the secondary of its own latest primary.
   */
  lemma {:induction false} NextReplyIsOwn(c: Config, trace: seq<State>, k: nat)
    requires WellFormed(c) && IsRun(c, trace) && k < |trace|
    ensures var s := trace[k];
            Can(s, HostReads) && HostWaitsFor(s.host.pc).ForReply? ==>
              var w := HostWaitsFor(s.host.pc);
              IsSecondary(Normalize(s.toHost[0]), w.systemBytes, w.wanted) && (w.systemBytes + 1) % TWO32 == s.host.nextSb
    ensures var s := trace[k];
            Can(s, EquipReads) && EquipWaitsFor(c, s.equip.pc).ForReply? ==>
              var w := EquipWaitsFor(c, s.equip.pc);
              IsSecondary(Normalize(s.toEquip[0]), w.systemBytes, w.wanted) && (w.systemBytes + 1) % TWO32 == s.equip.nextSb
  {
    hide IsRun, Bound;
    var g := RunOnGrid(c, trace, k);
    var s := trace[k];
    if Can(s, HostReads) && HostWaitsFor(s.host.pc).ForReply? {
      HostReplyAtHead(c, s, g);
    }
    if Can(s, EquipReads) && EquipWaitsFor(c, s.equip.pc).ForReply? {
      EquipReplyAtHead(c, s, g);
    }
  }

  lemma HostAwaitsOwnReply(c: Config, r: nat)
    requires WellFormed(c) && r < EquipTotal(c) && HostWaits(HostPcAt(c, r)) && HostWaitsFor(HostPcAt(c, r)).ForReply?
    ensures var w := HostWaitsFor(HostPcAt(c, r));
            IsSecondary(EquipMsg(c, r), w.systemBytes, w.wanted) && (w.systemBytes + 1) % TWO32 == HostNextSbAt(c, r)
  {
    hide Agreed, EventBody, S1F2, S1F14, Sb;
    if r >= 3 {
      var i := (r - 3) / 2;
      assert r == 3 + 2 * i;
      HostAfterAck(c, i);
      AckOf(c, i);
    }
    SbStep(r + 1);
    SbStep(4 + (r - 3) / 2);
  }

  lemma HostReplyAtHead(c: Config, s: State, g: Grid)
    requires WellFormed(c) && OnGrid(c, s, g) && Can(s, HostReads) && HostWaitsFor(s.host.pc).ForReply?
    ensures var w := HostWaitsFor(s.host.pc);
            IsSecondary(Normalize(s.toHost[0]), w.systemBytes, w.wanted) && (w.systemBytes + 1) % TWO32 == s.host.nextSb
  {
    hide HostMsg, HostMsgs, EquipMsg, EquipMsgs, HostGen, EquipGen, HostPcAt, HostNextSbAt, EquipPcAt, Records,
         EquipFits, L, Diverges, HostWaitsFor;
    EquipMsgsSlide(c, g.hr, g.ew);
    HostAwaitsOwnReply(c, g.hr);
  }

  lemma EquipAwaitsOwnReply(c: Config, r: nat)
    requires WellFormed(c) && r < HostTotal(c) && r <= EquipTotal(c)
    requires EquipWaits(EquipPcAt(c, r)) && EquipWaitsFor(c, EquipPcAt(c, r)).ForReply?
    ensures var w := EquipWaitsFor(c, EquipPcAt(c, r));
            IsSecondary(HostMsg(c, r), w.systemBytes, w.wanted)
            && (w.systemBytes + 1) % TWO32 == EquipAt(c, r, []).nextSb
  {
    hide Agreed, CommandBody, EventBody, Sb;
    if r >= 4 {
      assert r == 4 + 2 * ((r - 4) / 2);
      AckAndCommandOf(c, (r - 4) / 2);
      SbStep((r - 4) / 2 + 1);
    }
  }

  lemma EquipReplyAtHead(c: Config, s: State, g: Grid)
    requires WellFormed(c) && OnGrid(c, s, g) && Can(s, EquipReads) && EquipWaitsFor(c, s.equip.pc).ForReply?
    ensures var w := EquipWaitsFor(c, s.equip.pc);
            IsSecondary(Normalize(s.toEquip[0]), w.systemBytes, w.wanted) && (w.systemBytes + 1) % TWO32 == s.equip.nextSb
  {
    hide HostMsg, HostMsgs, EquipMsg, EquipMsgs, HostGen, EquipGen, HostPcAt, EquipPcAt, Records,
         HostFits, L, Diverges, EquipWaitsFor;
    HostMsgsSlide(c, g.er, g.hw);
    EquipAwaitsOwnReply(c, g.er);
  }

  /** When no step is left, all is said, and each side has returned or waits in vain. */
  lemma NothingLeft(s: State)
    requires Stuck(s)
    ensures s.host.out == [] && s.equip.out == []
    ensures if HostWaits(s.host.pc) then s.toHost == [] && !s.equipGone else s.hostGone
    ensures if EquipWaits(s.equip.pc) then s.toEquip == [] && !s.hostGone else s.equipGone
  {
    assert !Can(s, HostWrites) && !Can(s, HostReads) && !Can(s, HostHitsEof) && !Can(s, HostDrops);
    assert !Can(s, EquipWrites) && !Can(s, EquipReads) && !Can(s, EquipHitsEof) && !Can(s, EquipDrops);
  }

  /** Where both sides stand when no step is left. */
  lemma StuckGrid(c: Config, s: State, g: Grid)
    requires WellFormed(c) && OnGrid(c, s, g) && Stuck(s)
    ensures g.hr == g.ew == EquipTotal(c) && g.hw == HostTotal(c)
    ensures g.er == Min(HostTotal(c), EquipTotal(c))
    ensures s.host.out == [] && s.equip.out == [] && s.toHost == []
    ensures HostWaits(s.host.pc) || EquipWaits(s.equip.pc) ==> Diverges(c) && L(c) + 1 < |c.equipPlan|
    ensures HostWaits(s.host.pc) <==> EquipWaits(s.equip.pc)
  {
    hide HostMsg, EquipMsg, Records, HostNextSbAt, Agreed, Stuck, Can, CommandBody, EventBody, Sb;
    NothingLeft(s);
    GoneMeansSaid(c, s, g);
  }

  /** How a run ends, for every pair of plans; `L` is how far the plans agree. */
  predicate Ending(c: Config, s: State)
    requires WellFormed(c)
  {
    && s.host.records == Records(c, L(c))
    && (Matching(c) ==> s.host.pc.HostDone? && s.equip.pc.EquipDone?)
    // The techniques differ: the equipment stops at the first command, and the host is left alone.
    && (Refused(c) ==> s.host.pc.HostFailed? && s.equip.pc.EquipFailed?)
    // The equipment expects more commands than the host has.
    && (L(c) == |c.hostPlan| < |c.equipPlan| ==> s.host.pc.HostDone? && s.equip.pc.EquipFailed?)
    // The host has more commands than the equipment will serve.
    && (L(c) == |c.equipPlan| < |c.hostPlan| ==> s.host.pc.HostFailed? && s.equip.pc.EquipDone?)
    // Different sites: the host waits for an event that never comes.
    && (Diverges(c) && L(c) + 1 == |c.equipPlan| ==> s.host.pc.HostFailed? && s.equip.pc.EquipDone?)
    && (Diverges(c) && L(c) + 1 < |c.equipPlan| ==>
          s.host.pc == Collecting(L(c)) && s.equip.pc == Serving(L(c) + 1))
  }

  /** Where each side is once it has read everything it ever will. */
  lemma LastPcs(c: Config)
    requires WellFormed(c)
    ensures Diverges(c) ==> HostPcAt(c, EquipTotal(c)) == Collecting(L(c))
    ensures Refused(c) ==> HostPcAt(c, EquipTotal(c)) == Collecting(0)
    ensures !Diverges(c) && !Refused(c) && L(c) < |c.hostPlan| ==> HostPcAt(c, EquipTotal(c)).Commanding?
    ensures !Diverges(c) && L(c) == |c.hostPlan| ==> HostPcAt(c, EquipTotal(c)) == HostDone
    ensures var pc := EquipPcAt(c, Min(HostTotal(c), EquipTotal(c)));
            && (Refused(c) ==> pc == EquipFailed)
            && (!Refused(c) ==>
                  pc == var i := if Diverges(c) then L(c) + 1 else L(c); if i < |c.equipPlan| then Serving(i) else EquipDone)
    ensures HostAt(c, EquipTotal(c), []).records == Records(c, L(c))
  {
    hide Agreed, RecordAt;
    assert (3 + 2 * L(c) - 3) / 2 == L(c) && (5 + 2 * L(c) - 3) / 2 == L(c) + 1;
  }

  lemma StuckEnding(c: Config, s: State, g: Grid)
    requires WellFormed(c) && OnGrid(c, s, g) && Stuck(s)
    ensures Ending(c, s)
  {
    StuckGrid(c, s, g);
    LastPcs(c);
    MatchingIff(c);
    hide Matching, HostMsg, EquipMsg, HostMsgs, EquipMsgs, HostGen, EquipGen, HostNextSbAt, Agreed, RecordAt, Stuck, Records,
         HostPcAt, EquipPcAt, HostTotal, EquipTotal;
    assert s.host.records == HostAt(c, EquipTotal(c), []).records;
  }

  /**
   Every run that has stopped ended as `Ending` says: the host has exactly the records of the
   agreed commands, and both sides are done if and only if the plans name the same sites in the
   same order and, unless they are empty, the techniques are the same.
   */
  lemma {:induction false} RunEnds(c: Config, trace: seq<State>)
    requires WellFormed(c) && IsRun(c, trace) && Stuck(trace[|trace| - 1])
    ensures var s := trace[|trace| - 1];
            Ending(c, s) && (s.host.pc.HostDone? && s.equip.pc.EquipDone? <==> Matching(c))
  {
    var s := trace[|trace| - 1];
    var g := RunOnGrid(c, trace, |trace| - 1);
    StuckEnding(c, s, g);
    MatchingIff(c);
    hide Stuck, OnGrid, Records, Matching, Next;
    assert L(c) <= |c.hostPlan| && L(c) <= |c.equipPlan|;
  }

  lemma SamePlanOnGrid(c: Config, s: State, g: Grid)
    requires WellFormed(c) && OnGrid(c, s, g) && L(c) == |c.hostPlan| == |c.equipPlan|
    ensures !s.host.pc.HostFailed? && !s.equip.pc.EquipFailed?
  {
    hide HostMsg, EquipMsg, HostMsgs, EquipMsgs, HostGen, EquipGen, HostNextSbAt, Agreed, Records;
  }

  /** With the same task on both sides, no side ever fails, and until both are done a step is left. */
  lemma {:induction false} SamePlanNeverFails(c: Config, trace: seq<State>, k: nat)
    requires WellFormed(c) && IsRun(c, trace) && k < |trace| && Matching(c)
    ensures !trace[k].host.pc.HostFailed? && !trace[k].equip.pc.EquipFailed?
    ensures HostWaits(trace[k].host.pc) || EquipWaits(trace[k].equip.pc) ==> exists a :: Can(trace[k], a)
  {
    var s := trace[k];
    var g := RunOnGrid(c, trace, k);
    hide OnGrid, Can, Agreed, Matching, Next;
    MatchingIff(c);
    SamePlanOnGrid(c, s, g);
    if Stuck(s) {
      StuckGrid(c, s, g);
    }
  }

  /** With the same task, a run that has stopped has one record per command, in order. */
  lemma {:induction false} SamePlanCompletes(c: Config, trace: seq<State>)
    requires WellFormed(c) && IsRun(c, trace) && Stuck(trace[|trace| - 1]) && Matching(c)
    ensures var s := trace[|trace| - 1];
            && s.host.pc.HostDone? && s.equip.pc.EquipDone?
            && |s.host.records| == |c.hostPlan|
            && forall i | 0 <= i < |c.hostPlan| ::
                 s.host.records[i] == RecordOf(c, c.hostPlan[i], ReportedPosition(c, i))
  {
    RunEnds(c, trace);
    MatchingIff(c);
    hide Stuck, Matching, Agreed, ReportedPosition, Next;
  }
}
