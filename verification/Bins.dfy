/**
 Bins and their tallies. A `BTreeMap` from bin numbers to counts is the list of its entries in
 increasing order of bin, which is how the summary records are written out.
 */
module Bins {
  import opened Bytes
  import opened Utf8

  datatype HardBin = HardBin(pass: bool, name: Text)
  datatype SoftBin = SoftBin(name: Text, hardBin: u16)

  const ABORT_HARD_BIN: u16 := 12

  datatype BinTaxonomy = BinTaxonomy(hardBins: map<u16, HardBin>, softBins: map<u16, SoftBin>) {
    /** Unknown soft bins roll up into the abort bin. */
    function HardBinOf(softBin: u16): u16 {
      if softBin in softBins then softBins[softBin].hardBin else ABORT_HARD_BIN
    }

    predicate IsPassHardBin(hardBin: u16) {
      hardBin in hardBins && hardBins[hardBin].pass
    }
  }

  /** `BinTaxonomy::defaults`. */
  function Defaults(): BinTaxonomy
  {
    BinTaxonomy(
      map[1 := HardBin(true, Ascii("PASS")), 10 := HardBin(false, Ascii("PARAMETRIC_FAIL")),
          11 := HardBin(false, Ascii("FUNCTIONAL_FAIL")), 12 := HardBin(false, Ascii("ABORT"))],
      map[1 := SoftBin(Ascii("PASS_ALL"), 1), 10 := SoftBin(Ascii("FAIL_PARAMETRIC"), 10),
          11 := SoftBin(Ascii("FAIL_FUNCTIONAL"), 11), 12 := SoftBin(Ascii("FAIL_ABORT"), 12)])
  }

  datatype BinCount = BinCount(bin: u16, count: nat)

  predicate Ordered(cs: seq<BinCount>)
  {
    && (forall i, j :: 0 <= i < j < |cs| ==> cs[i].bin < cs[j].bin)
    && forall i :: 0 <= i < |cs| ==> cs[i].count > 0
  }

  function Lookup(cs: seq<BinCount>, bin: u16): nat
  {
    if cs == [] then 0 else if cs[0].bin == bin then cs[0].count else Lookup(cs[1..], bin)
  }

  /** `*entry(bin).or_insert(0) += 1`. */
  function Bump(cs: seq<BinCount>, bin: u16): seq<BinCount>
  {
    if cs == [] || bin < cs[0].bin then [BinCount(bin, 1)] + cs
    else if cs[0].bin == bin then [BinCount(bin, cs[0].count + 1)] + cs[1..]
    else [cs[0]] + Bump(cs[1..], bin)
  }

  /** The counts after bumping every bin of a list in turn. */
  function CountsOf(bins: seq<u16>): seq<BinCount>
  {
    if bins == [] then [] else Bump(CountsOf(bins[..|bins| - 1]), bins[|bins| - 1])
  }

  function Total(cs: seq<BinCount>): nat
  {
    if cs == [] then 0 else cs[0].count + Total(cs[1..])
  }

  lemma {:induction false} AbsentBelow(cs: seq<BinCount>, bin: u16)
    requires Ordered(cs) && (cs == [] || bin < cs[0].bin)
    ensures Lookup(cs, bin) == 0
  {
    if cs != [] {
      AbsentBelow(cs[1..], bin);
    }
  }

  lemma {:induction false} BumpCounts(cs: seq<BinCount>, bin: u16, other: u16)
    requires Ordered(cs)
    ensures Lookup(Bump(cs, bin), other) == Lookup(cs, other) + if other == bin then 1 else 0
  {
    if cs == [] || bin < cs[0].bin {
      AbsentBelow(cs, bin);
      assert ([BinCount(bin, 1)] + cs)[1..] == cs;
    } else if cs[0].bin == bin {
      assert ([BinCount(bin, cs[0].count + 1)] + cs[1..])[1..] == cs[1..];
    } else {
      BumpCounts(cs[1..], bin, other);
      assert ([cs[0]] + Bump(cs[1..], bin))[1..] == Bump(cs[1..], bin);
    }
  }

  lemma OrderedCons(c: BinCount, cs: seq<BinCount>)
    requires Ordered(cs) && c.count > 0 && (cs == [] || c.bin < cs[0].bin)
    ensures Ordered([c] + cs)
  {
  }

  lemma {:induction false} BumpKeepsOrder(cs: seq<BinCount>, bin: u16)
    requires Ordered(cs)
    ensures var r := Bump(cs, bin);
            && Ordered(r) && Total(r) == Total(cs) + 1
            && r != [] && (r[0].bin == bin || (cs != [] && r[0].bin == cs[0].bin))
  {
    if cs == [] || bin < cs[0].bin {
      assert ([BinCount(bin, 1)] + cs)[1..] == cs;
      OrderedCons(BinCount(bin, 1), cs);
    } else if cs[0].bin == bin {
      assert ([BinCount(bin, cs[0].count + 1)] + cs[1..])[1..] == cs[1..];
      OrderedCons(BinCount(bin, cs[0].count + 1), cs[1..]);
    } else {
      var rest := Bump(cs[1..], bin);
      BumpKeepsOrder(cs[1..], bin);
      assert ([cs[0]] + rest)[1..] == rest;
      OrderedCons(cs[0], rest);
    }
  }

  /** The counts of a list are ordered, exact for every bin, and add up to its length. */
  lemma {:induction false} CountsAreExact(bins: seq<u16>, bin: u16)
    ensures Ordered(CountsOf(bins)) && Total(CountsOf(bins)) == |bins|
    ensures Lookup(CountsOf(bins), bin) == multiset(bins)[bin]
  {
    if bins != [] {
      var front, last := bins[..|bins| - 1], bins[|bins| - 1];
      CountsAreExact(front, bin);
      BumpKeepsOrder(CountsOf(front), last);
      BumpCounts(CountsOf(front), last, bin);
      assert bins == front + [last];
    }
  }

  /** Ordered counts are determined by what they say about each bin. */
  lemma {:induction false} CountsAreDetermined(a: seq<BinCount>, b: seq<BinCount>)
    requires Ordered(a) && Ordered(b)
    requires forall bin :: Lookup(a, bin) == Lookup(b, bin)
    ensures a == b
  {
    assert a != [] ==> Lookup(a, a[0].bin) == a[0].count;
    assert b != [] ==> Lookup(b, b[0].bin) == b[0].count;
    if a != [] && b != [] {
      if a[0].bin < b[0].bin {
        AbsentBelow(b, a[0].bin);
      } else if b[0].bin < a[0].bin {
        AbsentBelow(a, b[0].bin);
      }
      assert a[0] == b[0];
      forall bin ensures Lookup(a[1..], bin) == Lookup(b[1..], bin) {
        assert Lookup(a, bin) == Lookup(b, bin);
        if bin == a[0].bin {
          AbsentBelow(a[1..], bin);
          AbsentBelow(b[1..], bin);
        }
      }
      CountsAreDetermined(a[1..], b[1..]);
      assert a == [a[0]] + a[1..] && b == [b[0]] + b[1..];
    }
  }

  /** The order in which bins are counted does not matter. */
  lemma SameBinsSameCounts(a: seq<u16>, b: seq<u16>)
    requires multiset(a) == multiset(b)
    ensures CountsOf(a) == CountsOf(b)
  {
    forall bin ensures Lookup(CountsOf(a), bin) == Lookup(CountsOf(b), bin) {
      CountsAreExact(a, bin);
      CountsAreExact(b, bin);
    }
    CountsAreExact(a, 0);
    CountsAreExact(b, 0);
    CountsAreDetermined(CountsOf(a), CountsOf(b));
  }

  class BinTally {
    var totalTested: nat
    var totalPassed: nat
    var hardBins: seq<BinCount>
    var softBins: seq<BinCount>
    var aborted: nat

    constructor ()
      ensures totalTested == 0 && totalPassed == 0 && hardBins == [] && softBins == [] && aborted == 0
    {
      totalTested, totalPassed, hardBins, softBins, aborted := 0, 0, [], [], 0;
    }

    method Record(passed: bool, hardBin: u16, softBin: u16)
      modifies this`totalTested, this`totalPassed, this`hardBins, this`softBins
      ensures totalTested == old(totalTested) + 1
      ensures totalPassed == old(totalPassed) + if passed then 1 else 0
      ensures hardBins == Bump(old(hardBins), hardBin) && softBins == Bump(old(softBins), softBin)
    {
      totalTested := totalTested + 1;
      totalPassed := totalPassed + if passed then 1 else 0;
      hardBins := Bump(hardBins, hardBin);
      softBins := Bump(softBins, softBin);
    }
  }
}
