/** The placement reference, placement commands and placement records (all lengths in nanometres). */
module Layout {
  import opened Outcomes
  import opened Utf8

  datatype Point = Point(x: int, y: int)

  datatype Orientation = R0 | MX | MY | R180

  datatype DieSpec = DieSpec(chipletId: Text, width: int, height: int)

  datatype SiteSpec = SiteSpec(siteId: Text, chipletId: Text, position: Point, orientation: Orientation)

  /** `width` and `height` are the extent of the interposer. */
  datatype InterposerLayout =
    InterposerLayout(width: int, height: int, dies: seq<DieSpec>, sites: seq<SiteSpec>)

  datatype Technique = WireBond | FlipChip | ChipletPickPlace

  datatype Command = Command(siteId: Text, chipletId: Text, target: Point, orientation: Orientation)

  datatype Record = Record(siteId: Text, chipletId: Text, technique: Technique, nominal: Point,
                           placed: Point, orientation: Orientation)

  function Abs(v: int): nat { if v < 0 then -v else v }

  function ManhattanDistance(a: Point, b: Point): nat
  {
    Abs(a.x - b.x) + Abs(a.y - b.y)
  }

  /** The first site with that id. */
  function FindSite(sites: seq<SiteSpec>, id: Text): Option<SiteSpec>
  {
    if sites == [] then None
    else if sites[0].siteId == id then Some(sites[0])
    else FindSite(sites[1..], id)
  }

  /** The first footprint with that chiplet id. */
  function FindDie(dies: seq<DieSpec>, id: Text): Option<DieSpec>
  {
    if dies == [] then None
    else if dies[0].chipletId == id then Some(dies[0])
    else FindDie(dies[1..], id)
  }

  predicate FirstAt(sites: seq<SiteSpec>, id: Text, k: nat)
  {
    k < |sites| && sites[k].siteId == id && forall j :: 0 <= j < k ==> sites[j].siteId != id
  }

  /** The lookup finds the first site with the id, and none only if there is none. */
  lemma {:induction false} FindSiteFinds(sites: seq<SiteSpec>, id: Text)
    ensures FindSite(sites, id).Some? <==> exists k :: 0 <= k < |sites| && sites[k].siteId == id
    ensures FindSite(sites, id).Some? ==> exists k: nat :: FirstAt(sites, id, k) && FindSite(sites, id).value == sites[k]
  {
    if sites != [] {
      if sites[0].siteId == id {
        assert FirstAt(sites, id, 0);
      } else {
        FindSiteFinds(sites[1..], id);
        if k :| 0 <= k < |sites| && sites[k].siteId == id {
          assert sites[1..][k - 1].siteId == id;
        }
        if FindSite(sites, id).Some? {
          var k: nat :| FirstAt(sites[1..], id, k) && FindSite(sites[1..], id).value == sites[1..][k];
          forall j | 0 <= j < k + 1 ensures sites[j].siteId != id {
            assert j > 0 ==> sites[j] == sites[1..][j - 1];
          }
          assert FirstAt(sites, id, k + 1);
        }
      }
    }
  }

  predicate FirstDieAt(dies: seq<DieSpec>, id: Text, k: nat)
  {
    k < |dies| && dies[k].chipletId == id && forall j :: 0 <= j < k ==> dies[j].chipletId != id
  }

  /** The same for footprints and chiplets. */
  lemma {:induction false} FindDieFinds(dies: seq<DieSpec>, id: Text)
    ensures FindDie(dies, id).Some? <==> exists k :: 0 <= k < |dies| && dies[k].chipletId == id
    ensures FindDie(dies, id).Some? ==> exists k: nat :: FirstDieAt(dies, id, k) && FindDie(dies, id).value == dies[k]
  {
    if dies != [] {
      if dies[0].chipletId == id {
        assert FirstDieAt(dies, id, 0);
      } else {
        FindDieFinds(dies[1..], id);
        if k :| 0 <= k < |dies| && dies[k].chipletId == id {
          assert dies[1..][k - 1].chipletId == id;
        }
        if FindDie(dies, id).Some? {
          var k: nat :| FirstDieAt(dies[1..], id, k) && FindDie(dies[1..], id).value == dies[1..][k];
          forall j | 0 <= j < k + 1 ensures dies[j].chipletId != id {
            assert j > 0 ==> dies[j] == dies[1..][j - 1];
          }
          assert FirstDieAt(dies, id, k + 1);
        }
      }
    }
  }

  function Rcmd(t: Technique): Text
  {
    match t
    case WireBond => Ascii("PLACE_WB")
    case FlipChip => Ascii("PLACE_FC")
    case ChipletPickPlace => Ascii("PLACE_PP")
  }

  function ModelName(t: Technique): Text
  {
    match t
    case WireBond => Ascii("TPT-SIM-WB")
    case FlipChip => Ascii("TPT-SIM-FC")
    case ChipletPickPlace => Ascii("TPT-SIM-PP")
  }

  /** Each technique speaks its own remote command. */
  lemma RcmdsAreDistinct(a: Technique, b: Technique)
    ensures Rcmd(a) == Rcmd(b) <==> a == b
  {
    var wb, fc, pp := Ascii("PLACE_WB"), Ascii("PLACE_FC"), Ascii("PLACE_PP");
    assert wb[6] == 'W' as int && fc[6] == 'F' as int && pp[6] == 'P' as int;
  }
}
