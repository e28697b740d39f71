/** The wafer map: the state of every die, in coordinate order, and the counts taken from it. */
module Wafer {
  import opened Outcomes
  import opened Bytes
  import opened Utf8
  import opened Bins

  type i16 = x: int | -0x8000 <= x < 0x8000
  type i32 = x: int | -0x8000_0000 <= x < 0x8000_0000

  datatype DieCoord = DieCoord(x: i32, y: i32)

  /** The derived order: x first, then y. */
  predicate Before(a: DieCoord, b: DieCoord)
  {
    a.x < b.x || (a.x == b.x && a.y < b.y)
  }

  datatype DieTestOutcome = DieTestOutcome(passed: bool, hardBin: u16, softBin: u16)
  datatype DieState = Untested | Excluded | Tested(outcome: DieTestOutcome)
  datatype Die = Die(coord: DieCoord, state: DieState)

  /** The entries of a `BTreeMap`. */
  predicate InOrder(dies: seq<Die>)
  {
    forall i, j :: 0 <= i < j < |dies| ==> Before(dies[i].coord, dies[j].coord)
  }

  predicate NoneTested(dies: seq<Die>)
  {
    forall i :: 0 <= i < |dies| ==> !dies[i].state.Tested?
  }

  function Find(dies: seq<Die>, coord: DieCoord): (r: Option<nat>)
    ensures r.Some? ==> r.value < |dies| && dies[r.value].coord == coord
    ensures r.None? ==> forall i :: 0 <= i < |dies| ==> dies[i].coord != coord
  {
    if dies == [] then None
    else if dies[0].coord == coord then Some(0)
    else
      var r := Find(dies[1..], coord);
      assert forall i :: 0 < i < |dies| ==> dies[i] == dies[1..][i - 1];
      if r.Some? then Some(r.value + 1) else None
  }

  datatype Placed = Placed(dies: seq<Die>, ok: bool)

  /** `WaferDieMap::record`: excluded dies and coordinates off the map are refused. */
  function Recorded(dies: seq<Die>, coord: DieCoord, outcome: DieTestOutcome): Placed
  {
    var at := Find(dies, coord);
    if at.Some? && !dies[at.value].state.Excluded?
    then Placed(dies[at.value := Die(coord, Tested(outcome))], true)
    else Placed(dies, false)
  }

  /** The outcomes on the map, in coordinate order. */
  function OutcomesOn(dies: seq<Die>): seq<DieTestOutcome>
  {
    if dies == [] then []
    else (if dies[0].state.Tested? then [dies[0].state.outcome] else []) + OutcomesOn(dies[1..])
  }

  function HardBinsIn(os: seq<DieTestOutcome>): (bs: seq<u16>)
    ensures |bs| == |os|
  {
    seq(|os|, i requires 0 <= i < |os| => os[i].hardBin)
  }

  function SoftBinsIn(os: seq<DieTestOutcome>): (bs: seq<u16>)
    ensures |bs| == |os|
  {
    seq(|os|, i requires 0 <= i < |os| => os[i].softBin)
  }

  function PassesIn(os: seq<DieTestOutcome>): nat
  {
    if os == [] then 0 else (if os[|os| - 1].passed then 1 else 0) + PassesIn(os[..|os| - 1])
  }

  lemma {:induction false} OutcomesSplit(a: seq<Die>, b: seq<Die>)
    ensures OutcomesOn(a + b) == OutcomesOn(a) + OutcomesOn(b)
  {
    if a == [] {
      assert a + b == b;
    } else {
      assert (a + b)[0] == a[0] && (a + b)[1..] == a[1..] + b;
      OutcomesSplit(a[1..], b);
      Associates(if a[0].state.Tested? then [a[0].state.outcome] else [], OutcomesOn(a[1..]), OutcomesOn(b));
    }
  }

  /** Replacing one die replaces its outcome, if it had one, and touches no other. */
  lemma OutcomesAfterUpdate(dies: seq<Die>, i: nat, d: Die)
    requires i < |dies|
    ensures multiset(OutcomesOn(dies[i := d])) + multiset(OutcomesOn([dies[i]]))
         == multiset(OutcomesOn(dies)) + multiset(OutcomesOn([d]))
  {
    assert dies == dies[..i] + ([dies[i]] + dies[i + 1..]);
    assert dies[i := d] == dies[..i] + ([d] + dies[i + 1..]);
    OutcomesSplit(dies[..i], [dies[i]] + dies[i + 1..]);
    OutcomesSplit([dies[i]], dies[i + 1..]);
    OutcomesSplit(dies[..i], [d] + dies[i + 1..]);
    OutcomesSplit([d], dies[i + 1..]);
  }

  /** The map as a value: die sizes are bit patterns of 32-bit floats. */
  datatype WaferMap = WaferMap(waferId: Text, dies: seq<Die>, dieHeight: u32, dieWidth: u32, center: DieCoord)

  class WaferDieMap {
    const waferId: Text
    const dieHeight: u32
    const dieWidth: u32
    const center: DieCoord
    var dies: seq<Die>

    function Contents(): WaferMap
      reads this
    {
      WaferMap(waferId, dies, dieHeight, dieWidth, center)
    }

    constructor (contents: WaferMap)
      requires InOrder(contents.dies)
      ensures Contents() == contents
    {
      waferId, dieHeight, dieWidth, center := contents.waferId, contents.dieHeight, contents.dieWidth, contents.center;
      dies := contents.dies;
    }

    method Record(coord: DieCoord, outcome: DieTestOutcome) returns (ok: bool)
      requires InOrder(dies)
      modifies this`dies
      ensures InOrder(dies) && Placed(dies, ok) == Recorded(old(dies), coord, outcome)
    {
      var at := Find(dies, coord);
      if at.Some? && !dies[at.value].state.Excluded? {
        dies := dies[at.value := Die(coord, Tested(outcome))];
        return true;
      }
      return false;
    }

    /** (tested, passed). */
    method TestedCounts() returns (tested: nat, passed: nat)
      ensures tested == |OutcomesOn(dies)| && passed == PassesIn(OutcomesOn(dies))
    {
      tested, passed := 0, 0;
      for i := 0 to |dies|
        invariant tested == |OutcomesOn(dies[..i])| && passed == PassesIn(OutcomesOn(dies[..i]))
      {
        OneMoreDie(dies, i);
        if dies[i].state.Tested? {
          tested := tested + 1;
          passed := passed + if dies[i].state.outcome.passed then 1 else 0;
        }
      }
      assert dies[..|dies|] == dies;
    }

    method HardBinCounts() returns (counts: seq<BinCount>)
      ensures counts == CountsOf(HardBinsIn(OutcomesOn(dies)))
    {
      counts := [];
      for i := 0 to |dies|
        invariant counts == CountsOf(HardBinsIn(OutcomesOn(dies[..i])))
      {
        OneMoreDie(dies, i);
        if dies[i].state.Tested? {
          counts := Bump(counts, dies[i].state.outcome.hardBin);
        }
      }
      assert dies[..|dies|] == dies;
    }

    method SoftBinCounts() returns (counts: seq<BinCount>)
      ensures counts == CountsOf(SoftBinsIn(OutcomesOn(dies)))
    {
      counts := [];
      for i := 0 to |dies|
        invariant counts == CountsOf(SoftBinsIn(OutcomesOn(dies[..i])))
      {
        OneMoreDie(dies, i);
        if dies[i].state.Tested? {
          counts := Bump(counts, dies[i].state.outcome.softBin);
        }
      }
      assert dies[..|dies|] == dies;
    }
  }

  lemma OneMoreDie(dies: seq<Die>, i: nat)
    requires i < |dies|
    ensures var before, after := OutcomesOn(dies[..i]), OutcomesOn(dies[..i + 1]);
            if dies[i].state.Tested? then
              var o := dies[i].state.outcome;
              && after == before + [o]
              && PassesIn(after) == PassesIn(before) + (if o.passed then 1 else 0)
              && CountsOf(HardBinsIn(after)) == Bump(CountsOf(HardBinsIn(before)), o.hardBin)
              && CountsOf(SoftBinsIn(after)) == Bump(CountsOf(SoftBinsIn(before)), o.softBin)
            else after == before
  {
    assert dies[..i + 1] == dies[..i] + [dies[i]];
    OutcomesSplit(dies[..i], [dies[i]]);
    assert [dies[i]][1..] == [];
    if dies[i].state.Tested? {
      OneMoreOutcome(OutcomesOn(dies[..i]), dies[i].state.outcome);
    }
  }

  /** One more outcome bumps one hard bin and one soft bin. */
  lemma OneMoreOutcome(os: seq<DieTestOutcome>, o: DieTestOutcome)
    ensures PassesIn(os + [o]) == PassesIn(os) + if o.passed then 1 else 0
    ensures CountsOf(HardBinsIn(os + [o])) == Bump(CountsOf(HardBinsIn(os)), o.hardBin)
    ensures CountsOf(SoftBinsIn(os + [o])) == Bump(CountsOf(SoftBinsIn(os)), o.softBin)
  {
    assert (os + [o])[..|os|] == os;
    assert HardBinsIn(os + [o]) == HardBinsIn(os) + [o.hardBin];
    assert (HardBinsIn(os) + [o.hardBin])[..|os|] == HardBinsIn(os);
    assert SoftBinsIn(os + [o]) == SoftBinsIn(os) + [o.softBin];
    assert (SoftBinsIn(os) + [o.softBin])[..|os|] == SoftBinsIn(os);
  }
}
