/** The merge rule for one symbol-second inside the correction horizon, and the theorem it exists for: what the second
    ends up holding depends on which facts arrived, not on the order they arrived in. */
module CanonicalMerge {
  import opened Options
  import opened LivePositions

  /** Where the provider put a live fact: connection epoch, then frame, then place in the frame. */
  datatype Provenance = LiveProviderAverage | RestFloorVolumeOverTrades

  datatype Values = Values(open: real, high: real, low: real, close: real, volume: real, vwap: real,
                           averageTradeSize: int, provenance: Provenance)

  datatype Source = Live(position: Position) | Historical

  /** One admitted one-second bar. */
  datatype Fact = Fact(start: int, source: Source, values: Values)

  datatype Record = Record(start: int, values: Values, authority: Source, greatest: Option<Position>)

  /** What one second holds: its canonical record, and the bit that marks contradictory historical rows. */
  datatype Cell = Cell(record: Option<Record>, conflict: bool)

  datatype Disposition =
    | Inserted | Revised | Withdrawn | ExactDuplicate | Integrity | TooLate | Nonprecedent
    | HistoricalLiveConflict | HistoricalHistoricalConflict | FencedContext

  /** A fact that repeats the record's values only lends it a greater live position. */
  function AdvanceLiveAuthority(r: Record, position: Position): Record {
    if r.greatest.None? || CompareLive(position, r.greatest.value) > 0
    then r.(greatest := Some(position), authority := Live(position))
    else r
  }

  /** The record an accepted fact becomes, keeping the live support of the record it replaces. */
  function Accepted(f: Fact, before: Option<Record>): Record {
    Record(f.start, f.values, f.source,
           match f.source
           case Live(p) => Some(p)
           case Historical => if before.Some? then before.value.greatest else None)
  }

  function MergeLive(c: Cell, f: Fact): (Cell, Disposition)
    requires f.source.Live?
  {
    var p := f.source.position;
    if c.record.None? then (Cell(Some(Accepted(f, None)), false), Inserted)
    else
      var r := c.record.value;
      if r.values == f.values then (c.(record := Some(AdvanceLiveAuthority(r, p))), ExactDuplicate)
      else if r.authority.Historical? then (Cell(Some(Accepted(f, c.record)), false), Revised)
      else if CompareLive(p, r.authority.position) < 0 then (c, Nonprecedent)
      else if CompareLive(p, r.authority.position) == 0 then (c.(record := None), Integrity)
      else (Cell(Some(Accepted(f, c.record)), false), Revised)
  }

  function MergeHistorical(c: Cell, f: Fact): (Cell, Disposition)
    requires f.source.Historical?
  {
    if c.record.None? then
      if c.conflict then (c, HistoricalHistoricalConflict)
      else (Cell(Some(Accepted(f, None)), false), Inserted)
    else if c.record.value.values == f.values then (c, ExactDuplicate)
    else if c.record.value.authority.Live? then (c, HistoricalLiveConflict)
    else (Cell(None, true), Withdrawn)
  }

  function Merge(c: Cell, f: Fact): (Cell, Disposition) {
    if f.source.Live? then MergeLive(c, f) else MergeHistorical(c, f)
  }

  /** A cell with the engine's integrity latch: once two values claimed one position, nothing merges any more. */
  datatype Outcome = Outcome(cell: Cell, integrity: bool)

  const Fresh := Outcome(Cell(None, false), false)

  function Deliver(o: Outcome, f: Fact): Outcome {
    if o.integrity then o
    else
      var r := Merge(o.cell, f);
      Outcome(r.0, r.1 == Integrity)
  }

  function DeliverAll(facts: seq<Fact>): Outcome {
    if facts == [] then Fresh else Deliver(DeliverAll(facts[..|facts| - 1]), facts[|facts| - 1])
  }

  // ------------------------------------------------------------------------------------- what the facts determine

  ghost predicate AtMost(a: Position, b: Position) {
    CompareLive(a, b) <= 0
  }

  /** Two live facts claim one position with unequal values. */
  ghost predicate Clash(f: Fact, g: Fact) {
    f.source.Live? && g.source.Live? && f.source == g.source && f.values != g.values
  }

  ghost predicate Consistent(facts: set<Fact>) {
    forall f, g :: f in facts && g in facts ==> !Clash(f, g)
  }

  /** No live fact stands after this position. */
  ghost predicate Greatest(facts: set<Fact>, p: Position) {
    forall g :: g in facts && g.source.Live? ==> AtMost(g.source.position, p)
  }

  /** The clash is at the greatest position of all. */
  ghost predicate ClashAtGreatest(facts: set<Fact>) {
    exists f, g :: f in facts && g in facts && Clash(f, g) && Greatest(facts, f.source.position)
  }

  /** What a set of facts determines, whatever the order: live over conflict over historical, the greatest live
      position among live ones, and nothing at all from no facts. */
  ghost predicate Determines(facts: set<Fact>, c: Cell) {
    if c.record.None? then
      if c.conflict then
        && (forall f :: f in facts ==> f.source.Historical?)
        && exists f, g :: f in facts && g in facts && f.values != g.values
      else facts == {}
    else
      var r := c.record.value;
      && !c.conflict
      && match r.authority
         case Historical =>
           && r.greatest == None
           && facts != {}
           && forall f :: f in facts ==> f.source.Historical? && f.values == r.values && f.start == r.start
         case Live(p) =>
           && r.greatest == Some(p)
           && Greatest(facts, p)
           && (exists f :: f in facts && f.source == Live(p) && f.start == r.start)
           && forall f :: f in facts && f.source == Live(p) ==> f.values == r.values
  }

  /** The invariant of delivery. */
  ghost predicate Settles(facts: set<Fact>, o: Outcome) {
    if o.integrity then o.cell == Cell(None, false) && !Consistent(facts)
    else Determines(facts, o.cell)
  }

  ghost function FactsOf(facts: seq<Fact>): set<Fact> {
    set f | f in facts
  }

  ghost predicate OneSecond(facts: set<Fact>, start: int) {
    forall f :: f in facts ==> f.start == start
  }

  lemma CompareOrders(a: Position, b: Position, c: Position)
    ensures CompareLive(a, b) == 0 <==> a == b
    ensures CompareLive(a, b) < 0 <==> CompareLive(b, a) > 0
    ensures AtMost(a, b) && AtMost(b, c) ==> AtMost(a, c)
  {}

  lemma MergeLiveSettles(facts: set<Fact>, c: Cell, f: Fact)
    requires Determines(facts, c) && f.source.Live? && OneSecond(facts + {f}, f.start)
    ensures Settles(facts + {f}, Deliver(Outcome(c, false), f))
  {
    var p, more := f.source.position, facts + {f};
    assert f in more;
    CompareOrders(p, p, p);
    if c.record.Some? && c.record.value.authority.Live? {
      var q := c.record.value.authority.position;
      CompareOrders(p, q, p);
      CompareOrders(q, p, q);
      forall e | e in facts && e.source.Live? ensures AtMost(e.source.position, p) || AtMost(p, q) {
        CompareOrders(e.source.position, q, p);
      }
    }
    if c.record.Some? && c.record.value.authority.Live? {
      var r := c.record.value;
      var g :| g in facts && g.source == r.authority && g.start == r.start;
      if r.values != f.values && p == r.authority.position {
        assert g.values == r.values;
        assert Clash(f, g);
      }
    }
  }

  lemma MergeHistoricalSettles(facts: set<Fact>, c: Cell, f: Fact)
    requires Determines(facts, c) && f.source.Historical? && OneSecond(facts + {f}, f.start)
    ensures Settles(facts + {f}, Deliver(Outcome(c, false), f))
  {
    var more := facts + {f};
    assert f in more;
    if c.record.Some? && c.record.value.authority.Historical? && c.record.value.values != f.values {
      var g :| g in facts;
      assert g in more && g.values != f.values;
    }
  }

  lemma {:induction false} DeliverySettles(facts: seq<Fact>, start: int)
    requires OneSecond(FactsOf(facts), start)
    ensures Settles(FactsOf(facts), DeliverAll(facts))
    decreases |facts|
  {
    if facts != [] {
      var rest, f := facts[..|facts| - 1], facts[|facts| - 1];
      var before, after := FactsOf(rest), FactsOf(facts);
      assert facts == rest + [f];
      assert after == before + {f};
      DeliverySettles(rest, start);
      var o := DeliverAll(rest);
      if o.integrity {
        assert !Consistent(after) by {
          var g, h :| g in before && h in before && Clash(g, h);
          assert g in after && h in after;
        }
      } else if f.source.Live? {
        MergeLiveSettles(before, o.cell, f);
      } else {
        MergeHistoricalSettles(before, o.cell, f);
      }
    }
  }

  /** A clash at the greatest position never goes unnoticed. */
  lemma ClashAtGreatestLatches(facts: set<Fact>, o: Outcome)
    requires Settles(facts, o) && ClashAtGreatest(facts)
    ensures o == Outcome(Cell(None, false), true)
  {
    var f, g :| f in facts && g in facts && Clash(f, g) && Greatest(facts, f.source.position);
    if !o.integrity {
      assert o.cell.record.Some? && o.cell.record.value.authority.Live?;
      var p := o.cell.record.value.authority.position;
      CompareOrders(p, f.source.position, p);
      CompareOrders(f.source.position, p, p);
    }
  }

  lemma DeterminesOneCell(facts: set<Fact>, start: int, c: Cell, d: Cell)
    requires OneSecond(facts, start) && Determines(facts, c) && Determines(facts, d)
    ensures c == d
  {
    if c.record.Some? && d.record.Some? {
      var r, s := c.record.value, d.record.value;
      if r.authority.Live? && s.authority.Live? {
        CompareOrders(r.authority.position, s.authority.position, r.authority.position);
        CompareOrders(s.authority.position, r.authority.position, r.authority.position);
      }
    }
  }

  /** Convergence: two deliveries of the same facts for one second end alike, in value, authority, greatest live
      position, conflict bit and integrity latch, unless two facts clash below the greatest live position. */
  lemma MergeConverges(first: seq<Fact>, second: seq<Fact>, start: int)
    requires FactsOf(first) == FactsOf(second)
    requires OneSecond(FactsOf(first), start)
    requires var facts := FactsOf(first); Consistent(facts) || ClashAtGreatest(facts)
    ensures DeliverAll(first) == DeliverAll(second)
    ensures DeliverAll(first).integrity <==> !Consistent(FactsOf(first))
    ensures Consistent(FactsOf(first)) ==> Determines(FactsOf(first), DeliverAll(first).cell)
  {
    var facts := FactsOf(first);
    DeliverySettles(first, start);
    DeliverySettles(second, start);
    if ClashAtGreatest(facts) {
      ClashAtGreatestLatches(facts, DeliverAll(first));
      ClashAtGreatestLatches(facts, DeliverAll(second));
    } else {
      DeterminesOneCell(facts, start, DeliverAll(first).cell, DeliverAll(second).cell);
    }
  }

  /** The greatest live position of a set with a live fact. */
  lemma {:induction false} GreatestLive(facts: set<Fact>, f: Fact) returns (h: Fact)
    requires f in facts && f.source.Live?
    ensures h in facts && h.source.Live? && Greatest(facts, h.source.position)
    decreases facts
  {
    if g :| g in facts && g.source.Live? && !AtMost(g.source.position, f.source.position) {
      var rest := facts - {f};
      h := GreatestLive(rest, g);
      assert facts == rest + {f};
      CompareOrders(f.source.position, g.source.position, h.source.position);
      CompareOrders(g.source.position, f.source.position, h.source.position);
      assert AtMost(f.source.position, h.source.position);
    } else {
      h := f;
    }
  }

  lemma {:induction false} Listed(facts: set<Fact>) returns (s: seq<Fact>)
    ensures FactsOf(s) == facts
  {
    if facts == {} {
      s := [];
    } else {
      var f :| f in facts;
      var rest := Listed(facts - {f});
      s := rest + [f];
      assert forall e :: e in s <==> e in FactsOf(rest) || e == f;
    }
  }

  lemma {:induction false} LatchStays(first: seq<Fact>, rest: seq<Fact>)
    requires DeliverAll(first).integrity
    ensures DeliverAll(first + rest).integrity
    decreases |rest|
  {
    if rest == [] {
      assert first + rest == first;
    } else {
      var init := rest[..|rest| - 1];
      assert (first + rest)[..|first + rest| - 1] == first + init;
      LatchStays(first, init);
    }
  }

  /** Once the greatest fact leads, no lower clash is noticed. */
  lemma {:induction false} GreatestFirstNeverLatches(facts: set<Fact>, h: Fact, rest: seq<Fact>)
    requires h in facts && h.source.Live? && Greatest(facts, h.source.position)
    requires forall f :: f in rest ==> f in facts
    requires forall f :: f in facts && f.source == h.source ==> f.values == h.values
    ensures var o := DeliverAll([h] + rest);
            && !o.integrity
            && o.cell == Cell(Some(Record(h.start, h.values, h.source, Some(h.source.position))), false)
    decreases |rest|
  {
    if rest == [] {
      assert [h] + rest == [h];
      assert DeliverAll([h][..0]) == Fresh;
    } else {
      var init, f := rest[..|rest| - 1], rest[|rest| - 1];
      assert ([h] + rest)[..|rest|] == [h] + init;
      GreatestFirstNeverLatches(facts, h, init);
      if f.source.Live? {
        CompareOrders(f.source.position, h.source.position, h.source.position);
      }
    }
  }

  /** The other half: a clash below the greatest live position makes the order matter.  Delivered first it latches
      integrity; delivered after the greatest fact it is only found too low to precede. */
  lemma LowerClashDiverges(facts: set<Fact>) returns (first: seq<Fact>, second: seq<Fact>)
    requires !Consistent(facts) && !ClashAtGreatest(facts)
    ensures FactsOf(first) == facts == FactsOf(second)
    ensures DeliverAll(first).integrity && !DeliverAll(second).integrity
  {
    var f, g :| f in facts && g in facts && Clash(f, g);
    var h := GreatestLive(facts, f);
    var all := Listed(facts);
    first, second := [f, g] + all, [h] + all;
    assert [f, g][..1] == [f] && [f][..0] == [];
    CompareOrders(f.source.position, g.source.position, f.source.position);
    assert DeliverAll([f]) == Deliver(Fresh, f);
    assert DeliverAll([f, g]).integrity;
    LatchStays([f, g], all);
    forall e | e in facts && e.source == h.source ensures e.values == h.values {
      assert !Clash(e, h);
    }
    GreatestFirstNeverLatches(facts, h, all);
    assert forall e :: e in all <==> e in facts;
  }
}
