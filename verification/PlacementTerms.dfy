/** What a placement command, a placement event and a placement record say, item by item. */
module PlacementTerms {
  import opened Bytes
  import opened Utf8
  import opened SecsItem
  import opened Gem
  import opened Layout
  import opened AssemblyRun

  // ---------- coordinates ----------

  /** `n` is `v` as an unsigned 32-bit number: 0 if it is negative, and its low 32 bits otherwise. */
  predicate IsU4Of(v: int, n: int)
  {
    0 <= n < TWO32 && if v < 0 then n == 0 else (v - n) % TWO32 == 0
  }

  lemma U4OfIsUnique(v: int, n: int)
    ensures IsU4Of(v, n) <==> n == ToU4(v)
    ensures 0 <= v < TWO32 ==> ToU4(v) == v
  {
  }

  predicate IsU4Item(i: Item, v: int)
  {
    i.Number? && i.number == U4 && |i.values| == 1 && IsU4Of(v, i.values[0])
  }

  // ---------- the three messages ----------

  /** The remote commands as ASCII bytes. */
  function RcmdBytes(t: Technique): Text
  {
    [80, 76, 65, 67, 69, 95] + match t case WireBond => [87, 66] case FlipChip => [70, 67] case ChipletPickPlace => [80, 80]
  }

  /** A two-item list of a name and a value. */
  predicate IsParam(i: Item, name: Text)
  {
    i.List? && |i.items| == 2 && i.items[0] == SecsItem.Ascii(name)
  }

  /** An S2F41 body that asks for the command: the remote command, then SITE, X and Y in this order. */
  predicate OrdersPlacement(body: Item, t: Technique, command: Command)
  {
    && body.List? && |body.items| == 2 && body.items[0] == SecsItem.Ascii(RcmdBytes(t)) && body.items[1].List?
    && var ps := body.items[1].items;
       && |ps| == 3
       && IsParam(ps[0], [83, 73, 84, 69]) && ps[0].items[1] == SecsItem.Ascii(command.siteId)
       && IsParam(ps[1], [88]) && IsU4Item(ps[1].items[1], command.target.x)
       && IsParam(ps[2], [89]) && IsU4Item(ps[2].items[1], command.target.y)
  }

  lemma CommandBodyOrders(t: Technique, command: Command)
    ensures OrdersPlacement(CommandBody(t, command), t, command)
    ensures var p := ParseS2F41(CommandBody(t, command));
            && p.Ok? && |p.value.params| == 3
            && p.value.params[0] == Param([83, 73, 84, 69], SecsItem.Ascii(command.siteId))
            && p.value.params[1].name == [88] && IsU4Item(p.value.params[1].value, command.target.x)
            && p.value.params[2].name == [89] && IsU4Item(p.value.params[2].value, command.target.y)
  {
    U4OfIsUnique(command.target.x, ToU4(command.target.x));
    U4OfIsUnique(command.target.y, ToU4(command.target.y));
    RcmdSpelled(t);
    NamesSpelled();
    hide ToU4, IsU4Of, Rcmd, RcmdBytes, Utf8.Ascii;
    var site := Param(Utf8.Ascii("SITE"), SecsItem.Ascii(command.siteId));
    var x := Param(Utf8.Ascii("X"), U4Item(ToU4(command.target.x)));
    var y := Param(Utf8.Ascii("Y"), U4Item(ToU4(command.target.y)));
    S2F41RoundTrip(HostCommand(Rcmd(t), [site, x, y]));
    ThreeParams([site, x, y]);
  }

  lemma RcmdSpelled(t: Technique)
    ensures Rcmd(t) == RcmdBytes(t)
  {
  }

  lemma NamesSpelled()
    ensures Utf8.Ascii("SITE") == [83, 73, 84, 69] && Utf8.Ascii("X") == [88] && Utf8.Ascii("Y") == [89]
  {
  }

  /** An S6F11 body that reports the command as carried out with a deviation. */
  predicate ReportsPlacement(body: Item, command: Command, jitter: Point)
  {
    && body.List? && |body.items| == 3
    && body.items[0] == Number(U4, [1]) && body.items[1] == Number(U4, [201])
    && body.items[2].List? && |body.items[2].items| == 1
    && var report := body.items[2].items[0];
       && report.List? && |report.items| == 2 && report.items[0] == Number(U4, [1]) && report.items[1].List?
       && var v := report.items[1].items;
          && |v| == 3 && v[0] == SecsItem.Ascii(command.siteId)
          && IsU4Item(v[1], command.target.x + jitter.x) && IsU4Item(v[2], command.target.y + jitter.y)
  }

  lemma EventBodyReports(c: Config, i: nat)
    requires WellFormed(c) && i < |c.equipPlan|
    ensures ReportsPlacement(EventBody(c, i), c.equipPlan[i], c.jitter[i])
  {
    var v := c.equipPlan[i].target;
    U4OfIsUnique(v.x + c.jitter[i].x, ToU4(v.x + c.jitter[i].x));
    U4OfIsUnique(v.y + c.jitter[i].y, ToU4(v.y + c.jitter[i].y));
    hide ToU4, IsU4Of;
    var p := ReportedPosition(c, i);
    var report := Report(1, [SecsItem.Ascii(c.equipPlan[i].siteId), U4Item(p.x), U4Item(p.y)]);
    assert [report][1..] == [];
    assert ReportItems([report]) == [ReportItem(report)];
  }

  /** A record of the command, carried out with a deviation by a host of technique `t`. */
  predicate RecordsPlacement(r: Record, t: Technique, command: Command, jitter: Point)
  {
    && r.siteId == command.siteId && r.chipletId == command.chipletId && r.technique == t
    && r.nominal == command.target && r.orientation == command.orientation
    && IsU4Of(command.target.x + jitter.x, r.placed.x) && IsU4Of(command.target.y + jitter.y, r.placed.y)
  }

  lemma RecordOfRecords(c: Config, command: Command, i: nat)
    requires WellFormed(c) && i < |c.equipPlan| && c.equipPlan[i].target == command.target
    ensures RecordsPlacement(RecordOf(c, command, ReportedPosition(c, i)), c.hostTechnique, command, c.jitter[i])
  {
    U4OfIsUnique(command.target.x + c.jitter[i].x, ToU4(command.target.x + c.jitter[i].x));
    U4OfIsUnique(command.target.y + c.jitter[i].y, ToU4(command.target.y + c.jitter[i].y));
    hide ToU4, IsU4Of;
  }
}
