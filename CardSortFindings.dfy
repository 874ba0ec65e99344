/** Three places where the card-sort loop as written does not do what its
    layout promises, each shown on a concrete input next to the behaviour
    the rest of the model uses instead. */
module CardSortFindings {
  import opened Wrappers
  import opened Yaml
  import opened Entries
  import opened Formatting
  import opened Specials
  import opened Templates
  import opened CardSort

  /** A layout of one row of two cards, not shuffled. */
  const TwoUp := SortOptions(true, true, 5, 1, 2, false, None)

  /** Card `A`, a `newpage` card, card `B`, after the presift. */
  const SplitCards := [Checked(false, Plain("A")),
                       Checked(true, Record(map["newpage" := Bool(true)])),
                       Checked(false, Plain("B"))]

  /** The `newpage` card of `SplitCards` is special. */
  lemma SplitCardsChecked()
    ensures CheckSpecial(Record(map["newpage" := Bool(true)])) == Ok(SplitCards[1])
  {
    var d := map["newpage" := Bool(true)];
    assert RepairNewpage(d) == d;
    assert RepairNewlabel(d) == d;
    assert Repair(d) == Ok(d);
  }

  /** The first card of `SplitCards` goes to the first place; the
      `newpage` card after it is honoured, disregarded or stops the loop as
      the rule says. */
  lemma SplitCardsStart(v: Version)
    ensures var w1 := Layout(v, TwoUp, SplitCards[..1], "", 0);
            && w1 == Laid(1, "", 0, [Step(0, "", 0)], false)
            && Layout(v, TwoUp, SplitCards[..2], "", 0) == LayoutStep(v, TwoUp, w1, SplitCards[1])
  {
    var cs := SplitCards;
    assert cs[..1][..0] == [];
    assert Layout(v, TwoUp, cs[..1][..0], "", 0) == Laid(0, "", 0, [], false);
    assert cs[..2][..1] == cs[..1];
  }

  /** Both real cards of `SplitCards` go to the first place of a page. */
  lemma SplitCardsLayout(v: Version)
    requires Rule(v, TwoUp) == Honour
    ensures var steps := Layout(v, TwoUp, SplitCards, "", 0).steps;
            |steps| == 2 && steps[0].pos == 0 && steps[1].pos == 0
  {
    var cs := SplitCards;
    SplitCardsStart(v);
    assert HasNewpage(cs[1]);
    var w2 := Layout(v, TwoUp, cs[..2], "", 0);
    assert w2.steps == [Step(0, "", 0)] && w2.pagecards == 0 && !w2.crashed;
    assert cs[..3][..2] == cs[..2];
    assert cs[..3] == cs;
  }

  /** The solution's page break as written: on every `rows * columns`-th
      real card, whatever the place the card is given. */
  function SolutionBreakAsWritten(endPage: string, beginPage: string, opts: SortOptions, i: nat): (r: string)
    requires ValidGrid(opts)
    ensures i % Grid(opts) != 0 ==> r == ""
    ensures i % Grid(opts) == 0 ==> r == PageBreak(endPage, beginPage, i, 0)
  {
    if i % Grid(opts) == 0 then (if i > 0 then endPage else "") + beginPage else ""
  }

  /** After a `newpage` card the second card goes to the first place of a
      new page, and the puzzle starts that page; the solution as written
      does not, and puts the second card in the cell of the first on the
      same page. */
  lemma SolutionBreakMissed()
    ensures var steps := Layout(Packaged, TwoUp, SplitCards, "", 0).steps;
            && |steps| == 2
            && Cell(TwoUp, steps[0].pos) == Cell(TwoUp, steps[1].pos)
            && PageBreak("\\end", "\\begin", 1, steps[1].pos) == "\\end\\begin"
            && SolutionBreakAsWritten("\\end", "\\begin", TwoUp, 1) == ""
  {
    SplitCardsLayout(Packaged);
  }

  /** When `newpage` cards are disregarded the two rules agree: card `i`
      starts a page exactly when `i` is a multiple of `rows * columns`. */
  lemma SolutionBreakAgrees(v: Version, opts: SortOptions, cs: seq<Checked>, label0: string, labelSize0: int,
                            endPage: string, beginPage: string, i: nat)
    requires ValidGrid(opts) && Rule(v, opts) == Disregard
    requires i < |Layout(v, opts, cs, label0, labelSize0).steps|
    ensures SolutionBreakAsWritten(endPage, beginPage, opts, i)
         == PageBreak(endPage, beginPage, i, Layout(v, opts, cs, label0, labelSize0).steps[i].pos)
  {
    LayoutDisregarding(v, opts, cs, label0, labelSize0);
  }

  /** The card loop as written checks every card again, after the presift
      has already repaired it: the number of cards the loop then takes
      for real. */
  function RecheckCount(cs: seq<Checked>): (r: nat)
    ensures r <= |cs|
    decreases |cs|
  {
    if cs == [] then 0
    else
      var n := |cs| - 1;
      var again := CheckSpecial(cs[n].card);
      RecheckCount(cs[..n]) + (if again.Ok? && !again.value.special then 1 else 0)
  }

  /** A card that is special only through an invalid `newlabel`: the
      presift removes the key, so the loop takes it for a real card
      although the presift counted none, and the loop then looks for the
      first puzzle card in an empty order. */
  lemma RecheckOverruns()
    ensures var c := Record(map["newlabel" := Int(5), "size" := Int(1)]);
            && CheckSpecial(c).Ok?
            && var cs := [CheckSpecial(c).value];
            && RealCount(cs) == 0
            && RecheckCount(cs) == 1
  {
    CheckSpecialUnstable();
    var c := Record(map["newlabel" := Int(5), "size" := Int(1)]);
    var cs := [CheckSpecial(c).value];
    assert cs[..0] == [];
  }

  /** Cards whose check is stable are counted alike by the loop as
      written and by the presift. */
  lemma {:induction false} RecheckAgrees(cs: seq<Checked>)
    requires forall i :: 0 <= i < |cs| ==> CheckSpecial(cs[i].card) == Ok(cs[i])
    ensures RecheckCount(cs) == RealCount(cs)
    decreases |cs|
  {
    if cs != [] {
      var n := |cs| - 1;
      assert forall i :: 0 <= i < n ==> cs[..n][i] == cs[i];
      RecheckAgrees(cs[..n]);
    }
  }

  /** The deal of `SplitCards` in its own order. */
  const SplitDeal := Deal(SplitCards, [0, 2], [0, 1])

  /** `SplitDeal` is a deal of `SplitCards`. */
  lemma SplitDealOk()
    ensures DealOk(SplitDeal)
  {
    var cs := SplitCards;
    assert cs[..2][..1] == cs[..1];
    assert cs[..1][..0] == [];
    assert cs[..3] == cs;
    assert RealIndices(cs) == [0, 2];
  }

  /** The first card of `SplitDeal` can be formatted. */
  lemma SplitFirstPrintable()
    requires DealOk(SplitDeal)
    ensures Printable(Packaged, TwoUp, SplitDeal, [Step(0, "", 0)])
  {
    var d := SplitDeal;
    assert PuzzleCard(d, 0) == Plain("A") && SolutionCard(d, 0) == Plain("A");
    assert ValidSize(5) && ValidSize(NumberSize(5));
    assert ItemOk(Packaged, TwoUp, PuzzleCard(d, 0), SolutionCard(d, 0), Step(0, "", 0));
  }

  /** The older script stops at the `newpage` card of `SplitCards`. */
  lemma LegacyStopsAtNewpage()
    ensures var w2 := Layout(Legacy, TwoUp, SplitCards[..2], "", 0);
            w2.crashed && w2.steps == [Step(0, "", 0)]
  {
    SplitCardsStart(Legacy);
    assert HasNewpage(SplitCards[1]);
  }

  /** The older script asks its layout for `shuffleCards` at every
      `newpage` card, and a layout that leaves the key out stops the run,
      although the option itself defaults to not shuffling. */
  lemma LegacyNewpageStops()
    ensures DealOk(SplitDeal) && Arranged(Legacy, TwoUp, SplitDeal, "", 0) == Err(NoShuffleKey)
  {
    SplitDealOk();
    LegacyStopsAtNewpage();
    SplitFirstPrintable();
    CrashStops(Legacy, TwoUp, SplitDeal, 2, "", 0);
  }
}
