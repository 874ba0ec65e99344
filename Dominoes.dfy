/** `make_domino_cards`: the puzzle and solution bodies of a domino
    activity.  Solution domino `k` carries the answer of the pair before
    `k` (cyclically) on its left and the question of pair `k` on its
    right, so that laid out in order the dominoes link every question to
    its answer; the puzzle shows the same dominoes in a shuffled order.
    Without looping, a terminal `[finish, start]` pair closes the chain. */
module Dominoes {
  import opened Wrappers
  import opened Text
  import opened Yaml
  import opened Entries
  import opened Formatting
  import opened Permutations
  import opened Subs
  import opened Substitution
  import opened Templates
  import opened CardSort

  /** Whether the dominoes form a loop, and the `start` and `finish`
      texts of the terminal pair when they do not. */
  datatype Ends = Ends(loop: bool, start: Entry, finish: Entry)

  /** The pairs the loop runs over: the data's pairs, followed by the
      terminal pair `[finish, start]` when not looping. */
  function Chain(pairs: seq<Pair>, ends: Ends): seq<Pair> {
    if ends.loop then pairs else pairs + [Pair(ends.finish, ends.start)]
  }

  /** `(k - 1 + n) % n`: the pair before `k`, the last one before the
      first. */
  function Before(n: nat, k: nat): (r: nat)
    requires k < n
    ensures r < n
    ensures k > 0 ==> r == k - 1
    ensures k == 0 ==> r == n - 1
  {
    if k > 0 then
      ModUnique(k - 1 + n, n, 1, k - 1);
      (k - 1 + n) % n
    else
      ModUnique(n - 1, n, 0, n - 1);
      (k - 1 + n) % n
  }

  /** The left face of domino `k`: the answer of the pair before it. */
  function Left(ps: seq<Pair>, k: nat): Entry
    requires k < |ps|
  {
    ps[Before(|ps|, k)].answer
  }

  /** The right face of domino `k`: the question of pair `k`. */
  function Right(ps: seq<Pair>, k: nat): Entry
    requires k < |ps|
  {
    ps[k].question
  }

  /** Laid out in order, the dominoes link each question to its answer:
      the right face of domino `k` holds the question of pair `k`, the
      left face of the next domino (the first one after the last) its
      answer. */
  lemma ChainLinks(ps: seq<Pair>, k: nat)
    requires k < |ps|
    ensures Right(ps, k) == ps[k].question
    ensures Left(ps, (k + 1) % |ps|) == ps[k].answer
  {
    var n := |ps|;
    if k + 1 < n {
      ModUnique(k + 1, n, 0, k + 1);
    } else {
      ModUnique(k + 1, n, 1, 0);
    }
  }

  /** Without looping, the first domino starts with `start` and the last
      one ends with `finish`. */
  lemma OpenChainEnds(pairs: seq<Pair>, ends: Ends)
    requires !ends.loop
    ensures var ps := Chain(pairs, ends);
            && |ps| == |pairs| + 1
            && Left(ps, 0) == ends.start
            && Right(ps, |pairs|) == ends.finish
            && forall k :: 0 <= k < |pairs| ==> Right(ps, k) == pairs[k].question
  {
  }

  /** The dominoes of one activity: the pairs of the chain, the puzzle
      order `cardorder` (puzzle position `i` shows domino `order[i]`), and
      the label and label size of the data. */
  datatype Deck = Deck(ps: seq<Pair>, order: seq<nat>, labelText: string, labelSize: int)

  predicate DeckOk(deck: Deck) {
    IsPermutation(deck.order, |deck.ps|)
  }

  /** The domino shown at puzzle position `i` (`solution` off) or at
      solution position `i`. */
  function Shown(deck: Deck, i: nat, solution: bool): (k: nat)
    requires DeckOk(deck) && i < |deck.ps|
    ensures k < |deck.ps|
  {
    if solution then i else deck.order[i]
  }

  /** The number printed at position `i`: `i + 1` in the puzzle, and one
      more than the puzzle position of the same domino in the solution. */
  function DominoNumber(deck: Deck, i: nat, solution: bool): nat
    requires DeckOk(deck) && i < |deck.ps|
  {
    InverseIsInverse(deck.order, |deck.ps|);
    if solution then Inverse(deck.order)[i] + 1 else i + 1
  }

  /** Puzzle position `i` shows solution domino `order[i]`, and both carry
      the number `i + 1`; every domino appears at exactly one puzzle
      position. */
  lemma DominoNumbersAgree(deck: Deck, i: nat)
    requires DeckOk(deck) && i < |deck.ps|
    ensures Shown(deck, i, false) == Shown(deck, deck.order[i], true)
    ensures DominoNumber(deck, deck.order[i], true) == DominoNumber(deck, i, false)
    ensures forall j :: 0 <= j < |deck.ps| && deck.order[j] == deck.order[i] ==> j == i
  {
    InverseIsInverse(deck.order, |deck.ps|);
  }

  /** A face the chosen version's formatter accepts for the TikZ cards
      and for Markdown, in the puzzle or the solution view. */
  predicate FaceOk(v: Version, opts: SortOptions, deck: Deck, face: Entry, solution: bool) {
    && CanFormat(v, face, opts.size, Tikz, deck.labelText, deck.labelSize, solution)
    && CanFormat(v, face, 0, Md, deck.labelText, 0, solution)
  }

  /** What position `i` needs: a valid number size when dominoes are
      numbered, and printable faces on the puzzle and the solution
      domino there. */
  predicate PositionOk(v: Version, opts: SortOptions, deck: Deck, i: nat)
    requires DeckOk(deck) && i < |deck.ps|
  {
    var p, s := Shown(deck, i, false), Shown(deck, i, true);
    && (opts.numbering ==> ValidSize(NumberSize(opts.size)))
    && FaceOk(v, opts, deck, Left(deck.ps, p), false) && FaceOk(v, opts, deck, Right(deck.ps, p), false)
    && FaceOk(v, opts, deck, Left(deck.ps, s), true) && FaceOk(v, opts, deck, Right(deck.ps, s), true)
  }

  /** The first `k` positions can all be printed. */
  predicate UpTo(v: Version, opts: SortOptions, deck: Deck, k: nat)
    requires DeckOk(deck)
  {
    k <= |deck.ps| && forall i :: 0 <= i < k ==> PositionOk(v, opts, deck, i)
  }

  /** Which positions can be printed. */
  function DominoFits(v: Version, opts: SortOptions, deck: Deck): (r: seq<bool>)
    requires DeckOk(deck)
    ensures |r| == |deck.ps|
  {
    seq(|deck.ps|, i requires 0 <= i < |deck.ps| => PositionOk(v, opts, deck, i))
  }

  /** A position fits exactly when it can be printed. */
  lemma DominoFitsMeans(v: Version, opts: SortOptions, deck: Deck)
    requires DeckOk(deck)
    ensures forall i :: 0 <= i < |deck.ps| ==> DominoFits(v, opts, deck)[i] == PositionOk(v, opts, deck, i)
  {
  }

  /** A face formatted for the TikZ cards or for Markdown. */
  function Face(v: Version, opts: SortOptions, deck: Deck, face: Entry, style: Style, solution: bool): Formatted
    requires FaceOk(v, opts, deck, face, solution)
  {
    if style == Md then FormatEntry(v, face, 0, Md, deck.labelText, 0, "(BLANK)", solution)
    else FormatEntry(v, face, opts.size, Tikz, deck.labelText, deck.labelSize, "(BLANK)", solution)
  }

  /** The substitutions of one domino: its cell, its number, and its two
      formatted faces with their labels. */
  function DominoSubs(cell: (nat, nat), cardnum: string, left: Formatted, right: Formatted): (r: Subst)
    ensures r.Keys == {"rownum", "colnum", "cardnum", "textL", "labelL", "textR", "labelR"}
  {
    map["rownum" := NatToString(cell.0), "colnum" := NatToString(cell.1), "cardnum" := cardnum,
        "textL" := left.text, "labelL" := left.cardLabel, "textR" := right.text, "labelR" := right.cardLabel]
  }

  /** The text of the domino at position `i`: the template's item section
      with its substitutions.  Position `i` is place `i` of the pages. */
  function DominoText(v: Version, opts: SortOptions, deck: Deck, i: nat, item: string, style: Style, solution: bool): string
    requires ValidGrid(opts) && DeckOk(deck) && i < |deck.ps| && PositionOk(v, opts, deck, i)
  {
    var k := Shown(deck, i, solution);
    DoSub(item, DominoSubs(Cell(opts, i), CardNumber(opts, DominoNumber(deck, i, solution)),
                           Face(v, opts, deck, Left(deck.ps, k), style, solution),
                           Face(v, opts, deck, Right(deck.ps, k), style, solution)))
  }

  /** `start` followed by the first `k` dominoes, each after its page
      break: a new page every `rows * columns` dominoes. */
  function DominoItems(v: Version, opts: SortOptions, deck: Deck, k: nat, start: string, item: string,
                       endPage: string, beginPage: string, style: Style, solution: bool): (r: string)
    requires ValidGrid(opts) && DeckOk(deck) && UpTo(v, opts, deck, k)
    ensures start <= r
    ensures k == 0 ==> r == start
    decreases k
  {
    if k == 0 then start
    else
      DominoItems(v, opts, deck, k - 1, start, item, endPage, beginPage, style, solution)
      + PageBreak(endPage, beginPage, k - 1, (k - 1) % Grid(opts))
      + DominoText(v, opts, deck, k - 1, item, style, solution)
  }

  /** The four bodies; dominoes always have a solution. */
  function DominoBodies(v: Version, opts: SortOptions, deck: Deck,
                        puz: TexTemplate, sol: TexTemplate, puzMd: MdTemplate, solMd: MdTemplate): (r: Bodies)
    requires ValidGrid(opts) && DeckOk(deck) && UpTo(v, opts, deck, |deck.ps|)
    ensures r.sol.Some? && r.solMd.Some?
  {
    var n := |deck.ps|;
    Bodies(DominoItems(v, opts, deck, n, puz.beginDocument, puz.item, puz.endPage, puz.beginPage, Tikz, false)
             + puz.endPage + puz.endDocument,
           DominoItems(v, opts, deck, n, puzMd.beginDocument, puzMd.item, "", "", Md, false) + puzMd.endDocument,
           Some(DominoItems(v, opts, deck, n, sol.beginDocument, sol.item, sol.endPage, sol.beginPage, Tikz, true)
                + sol.endPage + sol.endDocument),
           Some(DominoItems(v, opts, deck, n, solMd.beginDocument, solMd.item, "", "", Md, true) + solMd.endDocument))
  }

  /** The domino loop and the end sections: the bodies, or the first
      position that cannot be printed. */
  function DominoRun(v: Version, opts: SortOptions, deck: Deck,
                     puz: TexTemplate, sol: TexTemplate, puzMd: MdTemplate, solMd: MdTemplate): (r: Result<Bodies, SortError>)
    requires ValidGrid(opts) && DeckOk(deck)
    ensures r.Ok? <==> UpTo(v, opts, deck, |deck.ps|)
    ensures r.Ok? ==> r.value.sol.Some? && r.value.solMd.Some?
    ensures r.Err? ==> && r.error.Unprintable? && r.error.position < |deck.ps|
                       && !PositionOk(v, opts, deck, r.error.position)
                       && UpTo(v, opts, deck, r.error.position)
  {
    DominoFitsMeans(v, opts, deck);
    match FirstFalse(DominoFits(v, opts, deck))
    case Some(i) =>
      assert UpTo(v, opts, deck, i);
      Err(Unprintable(i))
    case None =>
      assert UpTo(v, opts, deck, |deck.ps|);
      Ok(DominoBodies(v, opts, deck, puz, sol, puzMd, solMd))
  }

  /** `make_domino_cards`: the card title first, then the dominoes of the
      chain in the given order. */
  function DominoCards(v: Version, opts: SortOptions, ends: Ends, title: Option<string>, titleSize: Option<int>,
                       label0: string, labelSize0: int, pairs: seq<Pair>, order: seq<nat>,
                       puz: TexTemplate, sol: TexTemplate, puzMd: MdTemplate, solMd: MdTemplate,
                       dsubs: Subst, dsubsmd: Subst): (r: Result<SortOut, SortError>)
    requires ValidGrid(opts) && IsPermutation(order, |Chain(pairs, ends)|)
    ensures CardTitle(title, titleSize, labelSize0).Err? ==> r == Err(CardTitle(title, titleSize, labelSize0).error)
  {
    match CardTitle(title, titleSize, labelSize0)
    case Err(e) => Err(e)
    case Ok(titles) =>
      match DominoRun(v, opts, Deck(Chain(pairs, ends), order, label0, labelSize0), puz, sol, puzMd, solMd)
      case Err(e) => Err(e)
      case Ok(bodies) => Ok(Filled(dsubs, dsubsmd, titles, opts, bodies))
  }

  /** A run that gets through leaves the title, the grid and both bodies,
      puzzle and solution, in each dictionary. */
  lemma DominoCardsKeys(v: Version, opts: SortOptions, ends: Ends, title: Option<string>, titleSize: Option<int>,
                        label0: string, labelSize0: int, pairs: seq<Pair>, order: seq<nat>,
                        puz: TexTemplate, sol: TexTemplate, puzMd: MdTemplate, solMd: MdTemplate,
                        dsubs: Subst, dsubsmd: Subst)
    requires ValidGrid(opts) && IsPermutation(order, |Chain(pairs, ends)|)
    requires DominoCards(v, opts, ends, title, titleSize, label0, labelSize0, pairs, order,
                         puz, sol, puzMd, solMd, dsubs, dsubsmd).Ok?
    ensures var r := DominoCards(v, opts, ends, title, titleSize, label0, labelSize0, pairs, order,
                                 puz, sol, puzMd, solMd, dsubs, dsubsmd).value;
            && r.tex.Keys == dsubs.Keys + {"cardtitle", "rows", "columns", "puzbody", "solbody"}
            && r.md.Keys == dsubsmd.Keys + {"cardtitle", "rows", "columns", "puzbody", "solbody"}
  {
  }

  /** The caller's list of pairs, which the generator extends with the
      terminal pair and shortens again. */
  class PairList {
    var pairs: seq<Pair>

    constructor(pairs: seq<Pair>)
      ensures this.pairs == pairs
    {
      this.pairs := pairs;
    }

    /** `pairs.append(p)`. */
    method Append(p: Pair)
      modifies this
      ensures pairs == old(pairs) + [p]
    {
      pairs := pairs + [p];
    }

    /** `pairs.pop()`, which returns the last pair. */
    method Pop() returns (p: Pair)
      requires pairs != []
      modifies this
      ensures pairs == old(pairs)[..|old(pairs)| - 1] && p == old(pairs)[|old(pairs)| - 1]
    {
      p := pairs[|pairs| - 1];
      pairs := pairs[..|pairs| - 1];
    }
  }

  /** The bodies built so far hold the begin sections and the first `k`
      dominoes. */
  predicate DominoRunningOk(v: Version, opts: SortOptions, deck: Deck, k: nat, run: Running,
                            puz: TexTemplate, sol: TexTemplate, puzMd: MdTemplate, solMd: MdTemplate)
    requires ValidGrid(opts) && DeckOk(deck) && UpTo(v, opts, deck, k)
  {
    && run.puz == DominoItems(v, opts, deck, k, puz.beginDocument, puz.item, puz.endPage, puz.beginPage, Tikz, false)
    && run.puzMd == DominoItems(v, opts, deck, k, puzMd.beginDocument, puzMd.item, "", "", Md, false)
    && run.sol == DominoItems(v, opts, deck, k, sol.beginDocument, sol.item, sol.endPage, sol.beginPage, Tikz, true)
    && run.solMd == DominoItems(v, opts, deck, k, solMd.beginDocument, solMd.item, "", "", Md, true)
  }

  /** Without pages, one more domino adds just its item. */
  lemma DominoItemsNoPages(v: Version, opts: SortOptions, deck: Deck, k: nat, start: string, item: string,
                           style: Style, solution: bool)
    requires ValidGrid(opts) && DeckOk(deck) && UpTo(v, opts, deck, k + 1)
    ensures UpTo(v, opts, deck, k)
    ensures DominoItems(v, opts, deck, k + 1, start, item, "", "", style, solution)
         == DominoItems(v, opts, deck, k, start, item, "", "", style, solution)
            + DominoText(v, opts, deck, k, item, style, solution)
  {
    var before := DominoItems(v, opts, deck, k, start, item, "", "", style, solution);
    assert before + PageBreak("", "", k, k % Grid(opts)) == before;
  }

  /** The page break and the items of position `i`, added to the bodies. */
  method AddDomino(v: Version, opts: SortOptions, deck: Deck, i: nat, run: Running,
                   puz: TexTemplate, sol: TexTemplate, puzMd: MdTemplate, solMd: MdTemplate)
    returns (next: Running)
    requires ValidGrid(opts) && DeckOk(deck) && UpTo(v, opts, deck, i + 1) && UpTo(v, opts, deck, i)
    requires DominoRunningOk(v, opts, deck, i, run, puz, sol, puzMd, solMd)
    ensures DominoRunningOk(v, opts, deck, i + 1, next, puz, sol, puzMd, solMd)
  {
    DominoItemsNoPages(v, opts, deck, i, puzMd.beginDocument, puzMd.item, Md, false);
    DominoItemsNoPages(v, opts, deck, i, solMd.beginDocument, solMd.item, Md, true);
    var pos := i % Grid(opts);
    next := Running(run.puz + PageBreak(puz.endPage, puz.beginPage, i, pos)
                      + DominoText(v, opts, deck, i, puz.item, Tikz, false),
                    run.puzMd + DominoText(v, opts, deck, i, puzMd.item, Md, false),
                    run.sol + PageBreak(sol.endPage, sol.beginPage, i, pos)
                      + DominoText(v, opts, deck, i, sol.item, Tikz, true),
                    run.solMd + DominoText(v, opts, deck, i, solMd.item, Md, true));
  }

  /** The first position that cannot be printed stops the run. */
  lemma FirstUnprintable(v: Version, opts: SortOptions, deck: Deck, i: nat)
    requires DeckOk(deck) && i < |deck.ps| && UpTo(v, opts, deck, i) && !PositionOk(v, opts, deck, i)
    ensures FirstFalse(DominoFits(v, opts, deck)) == Some(i)
  {
    var fits := DominoFits(v, opts, deck);
    DominoFitsMeans(v, opts, deck);
    FirstFalseAt(fits, i);
  }

  /** The domino loop: every position in turn, stopped by the first one
      that cannot be printed. */
  method DominoLoop(v: Version, opts: SortOptions, deck: Deck,
                    puz: TexTemplate, sol: TexTemplate, puzMd: MdTemplate, solMd: MdTemplate)
    returns (r: Result<Running, SortError>)
    requires ValidGrid(opts) && DeckOk(deck)
    ensures r.Err? ==> r.error.Unprintable? && FirstFalse(DominoFits(v, opts, deck)) == Some(r.error.position)
    ensures r.Ok? ==> UpTo(v, opts, deck, |deck.ps|)
                      && DominoRunningOk(v, opts, deck, |deck.ps|, r.value, puz, sol, puzMd, solMd)
  {
    var run := Running(puz.beginDocument, puzMd.beginDocument, sol.beginDocument, solMd.beginDocument);
    for i := 0 to |deck.ps|
      invariant UpTo(v, opts, deck, i)
      invariant DominoRunningOk(v, opts, deck, i, run, puz, sol, puzMd, solMd)
    {
      if !PositionOk(v, opts, deck, i) {
        FirstUnprintable(v, opts, deck, i);
        return Err(Unprintable(i));
      }
      run := AddDomino(v, opts, deck, i, run, puz, sol, puzMd, solMd);
    }
    return Ok(run);
  }

  /** The bodies of a deck: the domino loop, then the end sections. */
  method DominoBodiesOf(v: Version, opts: SortOptions, deck: Deck,
                        puz: TexTemplate, sol: TexTemplate, puzMd: MdTemplate, solMd: MdTemplate)
    returns (r: Result<Bodies, SortError>)
    requires ValidGrid(opts) && DeckOk(deck)
    ensures r == DominoRun(v, opts, deck, puz, sol, puzMd, solMd)
  {
    var loop := DominoLoop(v, opts, deck, puz, sol, puzMd, solMd);
    if loop.Err? {
      return Err(loop.error);
    }
    var run := loop.value;
    return Ok(Bodies(run.puz + puz.endPage + puz.endDocument, run.puzMd + puzMd.endDocument,
                     Some(run.sol + sol.endPage + sol.endDocument), Some(run.solMd + solMd.endDocument)));
  }

  /** `make_domino_cards`: the card title, the terminal pair appended to
      the caller's list when not looping, the domino loop, the end
      sections, and the terminal pair removed again.  A run stopped by an
      unprintable domino leaves the terminal pair in the list. */
  method MakeDominoCards(v: Version, opts: SortOptions, ends: Ends, title: Option<string>, titleSize: Option<int>,
                         label0: string, labelSize0: int, list: PairList, order: seq<nat>,
                         puz: TexTemplate, sol: TexTemplate, puzMd: MdTemplate, solMd: MdTemplate,
                         dsubs: Subst, dsubsmd: Subst)
    returns (r: Result<SortOut, SortError>)
    requires ValidGrid(opts) && IsPermutation(order, |Chain(list.pairs, ends)|)
    modifies list
    ensures r == DominoCards(v, opts, ends, title, titleSize, label0, labelSize0, old(list.pairs), order,
                             puz, sol, puzMd, solMd, dsubs, dsubsmd)
    ensures r.Ok? || r.error.BadTitleSize? ==> list.pairs == old(list.pairs)
    ensures r.Err? && r.error.Unprintable? ==> list.pairs == Chain(old(list.pairs), ends)
  {
    var titles := CardTitle(title, titleSize, labelSize0);
    if titles.Err? {
      return Err(titles.error);
    }
    var given := list.pairs;
    if !ends.loop {
      list.Append(Pair(ends.finish, ends.start));
    }
    assert list.pairs == Chain(given, ends);
    var deck := Deck(list.pairs, order, label0, labelSize0);
    var bodies := DominoBodiesOf(v, opts, deck, puz, sol, puzMd, solMd);
    DominoCardsFrom(v, opts, ends, title, titleSize, label0, labelSize0, given, order,
                    puz, sol, puzMd, solMd, dsubs, dsubsmd, titles.value);
    if bodies.Err? {
      return Err(bodies.error);
    }
    r := Ok(Filled(dsubs, dsubsmd, titles.value, opts, bodies.value));
    if !ends.loop {
      var _ := list.Pop();
      assert (given + [Pair(ends.finish, ends.start)])[..|given|] == given;
    }
  }

  /** Past the card title, the run is the domino run of the chain. */
  lemma DominoCardsFrom(v: Version, opts: SortOptions, ends: Ends, title: Option<string>, titleSize: Option<int>,
                        label0: string, labelSize0: int, pairs: seq<Pair>, order: seq<nat>,
                        puz: TexTemplate, sol: TexTemplate, puzMd: MdTemplate, solMd: MdTemplate,
                        dsubs: Subst, dsubsmd: Subst, titles: (string, string))
    requires ValidGrid(opts) && IsPermutation(order, |Chain(pairs, ends)|)
    requires CardTitle(title, titleSize, labelSize0) == Ok(titles)
    ensures var run := DominoRun(v, opts, Deck(Chain(pairs, ends), order, label0, labelSize0), puz, sol, puzMd, solMd);
            DominoCards(v, opts, ends, title, titleSize, label0, labelSize0, pairs, order,
                        puz, sol, puzMd, solMd, dsubs, dsubsmd)
            == if run.Err? then Err(run.error) else Ok(Filled(dsubs, dsubsmd, titles, opts, run.value))
  {
  }
}
