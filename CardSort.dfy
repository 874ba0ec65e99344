/** `make_cardsort_cards`: the puzzle and solution bodies of a card-sort
    activity.  Special cards are sifted out first; the real cards are then
    laid out on pages of `rows` x `columns` cards, the puzzle showing them
    in a shuffled order and the solution in the order of the data, each
    card numbered so that the two views can be matched up. */
module CardSort {
  import opened Wrappers
  import opened Text
  import opened Yaml
  import opened Entries
  import opened Formatting
  import opened Specials
  import opened Permutations
  import opened Subs
  import opened Substitution
  import opened Templates
  import Table

  /** The resolved options of a card-sort layout.  `layoutShuffle` is the
      layout's own `shuffleCards` entry, which the older script consults
      directly. */
  datatype SortOptions = SortOptions(solution: bool, numbering: bool, size: int,
                                     rows: nat, columns: nat, shuffled: bool,
                                     layoutShuffle: Option<bool>)

  /** A layout with at least one row and one column. */
  predicate ValidGrid(opts: SortOptions) {
    opts.rows > 0 && opts.columns > 0
  }

  /** The number of cards on a page. */
  function Grid(opts: SortOptions): (r: nat)
    requires ValidGrid(opts)
    ensures r > 0
  {
    opts.rows * opts.columns
  }

  /** Why the run stops while laying out the cards. */
  datatype SortError =
    | CheckFailed(cause: SpecialError)   // a special card's `newlabelsize` is not a number
    | NoShuffleKey                       // the older script looks up a missing `shuffleCards`
    | Unprintable(position: nat)         // a size index or an entry the formatter rejects
    | BadTitleSize(index: int)           // the card title's size index is out of range

  /** `max(labelSize - 1, 0)`: the default size of the card title. */
  function TitleSize(labelSize: int): (r: int)
    ensures r >= 0 && r >= labelSize - 1
  {
    if labelSize - 1 > 0 then labelSize - 1 else 0
  }

  /** The `cardtitle` substitutions for TeX and for Markdown: the title
      with its size command, or nothing when the data has no title. */
  function CardTitle(title: Option<string>, titleSize: Option<int>, labelSize: int): (r: Result<(string, string), SortError>)
    ensures title.None? ==> r == Ok(("", ""))
    ensures title.Some? ==> (r.Ok? <==> ValidSize(titleSize.GetOr(TitleSize(labelSize))))
    ensures title.Some? && r.Ok? ==>
              && r.value.1 == title.value
              && r.value.0 == SizeName(titleSize.GetOr(TitleSize(labelSize))) + " " + title.value
  {
    match title
    case None => Ok(("", ""))
    case Some(t) =>
      var k := titleSize.GetOr(TitleSize(labelSize));
      if ValidSize(k) then Ok((SizeName(k) + " " + t, t)) else Err(BadTitleSize(k))
  }

  /** Checking every card in turn, as the presift loop does; the first
      failure stops the run. */
  function Checks(cards: seq<Entry>): (r: Result<seq<Checked>, SpecialError>)
    ensures r.Ok? <==> forall i :: 0 <= i < |cards| ==> CheckSpecial(cards[i]).Ok?
    ensures r.Ok? ==> |r.value| == |cards| && forall i :: 0 <= i < |cards| ==> CheckSpecial(cards[i]) == Ok(r.value[i])
    decreases |cards|
  {
    if cards == [] then Ok([])
    else
      var n := |cards| - 1;
      match Checks(cards[..n])
      case Err(e) => Err(e)
      case Ok(cs) =>
        match CheckSpecial(cards[n])
        case Err(e) => Err(e)
        case Ok(c) =>
          assert forall i :: 0 <= i < n ==> cards[..n][i] == cards[i];
          Ok(cs + [c])
  }

  /** The number of real (not special) cards. */
  function RealCount(checked: seq<Checked>): (r: nat)
    ensures r <= |checked|
    decreases |checked|
  {
    if checked == [] then 0
    else
      var n := |checked| - 1;
      RealCount(checked[..n]) + (if checked[n].special then 0 else 1)
  }

  /** The indices of the real cards, in order. */
  function RealIndices(checked: seq<Checked>): (r: seq<nat>)
    ensures |r| == RealCount(checked)
    ensures forall j :: 0 <= j < |r| ==> r[j] < |checked| && !checked[r[j]].special
    ensures forall j, k :: 0 <= j < k < |r| ==> r[j] < r[k]
    ensures forall p :: 0 <= p < |checked| && !checked[p].special ==> p in r
    decreases |checked|
  {
    if checked == [] then []
    else
      var n := |checked| - 1;
      RealIndices(checked[..n]) + (if checked[n].special then [] else [n])
  }

  /** A prefix of the cards has no more real cards than all of them. */
  lemma {:induction false} RealCountPrefix(cs: seq<Checked>, all: seq<Checked>)
    requires cs <= all
    ensures RealCount(cs) <= RealCount(all)
    decreases |all| - |cs|
  {
    if |cs| < |all| {
      var next := all[..|cs| + 1];
      assert next[..|next| - 1] == cs;
      RealCountPrefix(next, all);
    } else {
      assert cs == all;
    }
  }

  /** The cards after the presift, their real cards, and the puzzle order
      `cardorder`: puzzle position `i` shows real card `order[i]`. */
  datatype Deal = Deal(checked: seq<Checked>, reals: seq<nat>, order: seq<nat>)

  predicate DealOk(d: Deal) {
    d.reals == RealIndices(d.checked) && IsPermutation(d.order, |d.reals|)
  }

  /** The card shown at puzzle position `i`. */
  function PuzzleCard(d: Deal, i: nat): Entry
    requires DealOk(d) && i < |d.reals|
  {
    d.checked[d.reals[d.order[i]]].card
  }

  /** The card shown at solution position `i`: the `i`-th real card. */
  function SolutionCard(d: Deal, i: nat): Entry
    requires DealOk(d) && i < |d.reals|
  {
    d.checked[d.reals[i]].card
  }

  /** The number printed on puzzle position `i`. */
  function PuzzleNumber(i: nat): nat {
    i + 1
  }

  /** The number printed on solution position `i`: one more than the
      puzzle position that shows the same card. */
  function SolutionNumber(d: Deal, i: nat): nat
    requires DealOk(d) && i < |d.reals|
  {
    InverseIsInverse(d.order, |d.reals|);
    Inverse(d.order)[i] + 1
  }

  /** The card at puzzle position `i` is the card at solution position
      `order[i]`, and both carry the number `i + 1`. */
  lemma NumbersAgree(d: Deal, i: nat)
    requires DealOk(d) && i < |d.reals|
    ensures d.order[i] < |d.reals|
    ensures PuzzleCard(d, i) == SolutionCard(d, d.order[i])
    ensures SolutionNumber(d, d.order[i]) == PuzzleNumber(i)
  {
    InverseIsInverse(d.order, |d.reals|);
  }

  /** Every real card appears at exactly one puzzle position. */
  lemma EachCardOnce(d: Deal, j: nat)
    requires DealOk(d) && j < |d.reals|
    ensures exists i :: 0 <= i < |d.reals| && d.order[i] == j
    ensures forall i, k :: 0 <= i < |d.reals| && 0 <= k < |d.reals| && d.order[i] == j && d.order[k] == j ==> i == k
  {
    PermutationOnto(d.order, |d.reals|);
    assert j in d.order;
  }

  /** What the loop knows of one real card: its place on the page
      (`pagecards`), and the label and label size in force. */
  datatype Step = Step(pos: nat, labelText: string, labelSize: int)

  /** The loop's layout state: the place of the next card on its page,
      the label and label size in force, the real cards laid out so far,
      and whether the loop has stopped on a `newpage` card. */
  datatype Laid = Laid(pagecards: nat, labelText: string, labelSize: int, steps: seq<Step>, crashed: bool)

  /** What a `newpage` card does: start a new page, nothing (shuffled
      cards), or stop the run (the older script's missing layout key). */
  datatype NewpageRule = Honour | Disregard | Crash

  /** The packaged generator ignores `newpage` when the cards are
      shuffled; the older script asks the layout's own `shuffleCards`. */
  function Rule(v: Version, opts: SortOptions): (r: NewpageRule)
    ensures v == Packaged ==> r != Crash && (r == Disregard <==> opts.shuffled)
    ensures v == Legacy ==> (r == Crash <==> opts.layoutShuffle.None?)
  {
    match v
    case Packaged => if opts.shuffled then Disregard else Honour
    case Legacy =>
      match opts.layoutShuffle
      case None => Crash
      case Some(b) => if b then Disregard else Honour
  }

  /** Whether a checked card asks for a new page. */
  predicate HasNewpage(ch: Checked) {
    ch.card.Record? && "newpage" in ch.card.fields
  }

  /** The label size after a special card: its `newlabelsize`, an integer
      (or a boolean, which Python treats as 0 or 1) after the check. */
  function NewLabelSize(ch: Checked, current: int): int {
    if ch.special && ch.card.Record? && "newlabelsize" in ch.card.fields then
      match ch.card.fields["newlabelsize"]
      case Int(k) => k
      case Bool(b) => if b then 1 else 0
      case _ => current
    else current
  }

  /** `max(size - 3, 0)`: the size index of card numbers. */
  function NumberSize(size: int): int {
    if size - 3 > 0 then size - 3 else 0
  }

  /** What formatting one real card needs: a valid number size when
      cards are numbered, and entries the chosen version's formatter
      accepts in each view that is produced (the puzzle view of the
      shuffled card, the solution view of the card in data order). */
  predicate ItemOk(v: Version, opts: SortOptions, puzzle: Entry, solution: Entry, step: Step) {
    && (opts.numbering ==> ValidSize(NumberSize(opts.size)))
    && CanFormat(v, puzzle, opts.size, Tikz, step.labelText, step.labelSize, false)
    && CanFormat(v, puzzle, 0, Md, step.labelText, 0, false)
    && (opts.solution ==> CanFormat(v, solution, opts.size, Tikz, step.labelText, step.labelSize, true)
                          && CanFormat(v, solution, 0, Md, step.labelText, 0, true))
  }

  /** Every real card so far can be formatted. */
  predicate Printable(v: Version, opts: SortOptions, d: Deal, steps: seq<Step>)
    requires DealOk(d)
  {
    |steps| <= |d.reals| &&
    forall i :: 0 <= i < |steps| ==> ItemOk(v, opts, PuzzleCard(d, i), SolutionCard(d, i), steps[i])
  }

  /** The place after `pagecards`, back to the first place once a page is
      full. */
  function NextPlace(opts: SortOptions, pagecards: nat): (r: nat)
    requires ValidGrid(opts)
    ensures pagecards < Grid(opts) ==> r < Grid(opts)
    ensures r == 0 || r == pagecards + 1
  {
    if pagecards + 1 == Grid(opts) then 0 else pagecards + 1
  }

  /** One turn of the card loop, as far as the layout goes. */
  function LayoutStep(v: Version, opts: SortOptions, w: Laid, ch: Checked): (r: Laid)
    requires ValidGrid(opts) && !w.crashed
    ensures ch.special ==> r.steps == w.steps
    ensures !ch.special ==> r.steps == w.steps + [Step(w.pagecards, w.labelText, w.labelSize)] && !r.crashed
    ensures r.crashed <==> ch.special && HasNewpage(ch) && Rule(v, opts) == Crash
  {
    if ch.special then
      if HasNewpage(ch) && Rule(v, opts) == Crash then w.(crashed := true)
      else
        w.(labelText := Table.NewLabel(ch, w.labelText),
           labelSize := NewLabelSize(ch, w.labelSize),
           pagecards := if HasNewpage(ch) && Rule(v, opts) == Honour then 0 else w.pagecards)
    else
      w.(pagecards := NextPlace(opts, w.pagecards),
         steps := w.steps + [Step(w.pagecards, w.labelText, w.labelSize)])
  }

  /** The card loop over the checked cards `cs`, each classified once by
      the presift, up to the end or to the card that stops it. */
  function Layout(v: Version, opts: SortOptions, cs: seq<Checked>, label0: string, labelSize0: int): (r: Laid)
    requires ValidGrid(opts)
    ensures |r.steps| <= RealCount(cs)
    ensures !r.crashed ==> |r.steps| == RealCount(cs)
    ensures r.pagecards < Grid(opts)
    decreases |cs|
  {
    if cs == [] then Laid(0, label0, labelSize0, [], false)
    else
      var n := |cs| - 1;
      var w := Layout(v, opts, cs[..n], label0, labelSize0);
      if w.crashed then w else LayoutStep(v, opts, w, cs[n])
  }

  /** The layout of a prefix of the cards is where the layout of all of
      them stood after that prefix: its real cards come first, and the
      loop stops within the prefix exactly when it stops there. */
  lemma {:induction false} LayoutPrefix(v: Version, opts: SortOptions, cs: seq<Checked>, m: nat, label0: string, labelSize0: int)
    requires ValidGrid(opts) && m <= |cs|
    ensures Layout(v, opts, cs[..m], label0, labelSize0).steps <= Layout(v, opts, cs, label0, labelSize0).steps
    ensures Layout(v, opts, cs[..m], label0, labelSize0).crashed ==>
              Layout(v, opts, cs, label0, labelSize0) == Layout(v, opts, cs[..m], label0, labelSize0)
    decreases |cs|
  {
    if m < |cs| {
      var n := |cs| - 1;
      assert cs[..n][..m] == cs[..m];
      LayoutPrefix(v, opts, cs[..n], m, label0, labelSize0);
    } else {
      assert cs[..m] == cs;
    }
  }

  /** The next card goes to the first place of a page or to the place
      after the last card's. */
  lemma {:induction false} LayoutNextPlace(v: Version, opts: SortOptions, cs: seq<Checked>, label0: string, labelSize0: int)
    requires ValidGrid(opts)
    ensures var w := Layout(v, opts, cs, label0, labelSize0);
            && (w.steps == [] ==> w.pagecards == 0)
            && (w.steps != [] ==> w.pagecards == 0 || w.pagecards == w.steps[|w.steps| - 1].pos + 1)
    decreases |cs|
  {
    if cs != [] {
      var n := |cs| - 1;
      LayoutNextPlace(v, opts, cs[..n], label0, labelSize0);
    }
  }

  /** The page places of the real cards: each is on the page, and each is
      either the first place of a new page or the place after the previous
      card's. */
  lemma LayoutGrid(v: Version, opts: SortOptions, cs: seq<Checked>, label0: string, labelSize0: int)
    requires ValidGrid(opts)
    ensures var w := Layout(v, opts, cs, label0, labelSize0);
            && (forall i :: 0 <= i < |w.steps| ==> w.steps[i].pos < Grid(opts))
            && (forall i :: 0 < i < |w.steps| ==> w.steps[i].pos == 0 || w.steps[i].pos == w.steps[i - 1].pos + 1)
  {
    LayoutOnPage(v, opts, cs, label0, labelSize0);
    LayoutRuns(v, opts, cs, label0, labelSize0);
  }

  /** Every real card is given a place on the page. */
  lemma {:induction false} LayoutOnPage(v: Version, opts: SortOptions, cs: seq<Checked>, label0: string, labelSize0: int)
    requires ValidGrid(opts)
    ensures forall i :: 0 <= i < |Layout(v, opts, cs, label0, labelSize0).steps| ==>
              Layout(v, opts, cs, label0, labelSize0).steps[i].pos < Grid(opts)
    decreases |cs|
  {
    if cs != [] {
      var n := |cs| - 1;
      var w := Layout(v, opts, cs[..n], label0, labelSize0);
      LayoutOnPage(v, opts, cs[..n], label0, labelSize0);
      if !w.crashed && !cs[n].special {
        var r := LayoutStep(v, opts, w, cs[n]);
        assert r.steps[|w.steps|].pos == w.pagecards;
      }
    }
  }

  /** Each real card after the first goes to the first place of a page or
      to the place after the previous card's. */
  lemma {:induction false} LayoutRuns(v: Version, opts: SortOptions, cs: seq<Checked>, label0: string, labelSize0: int)
    requires ValidGrid(opts)
    ensures var w := Layout(v, opts, cs, label0, labelSize0);
            forall i :: 0 < i < |w.steps| ==> w.steps[i].pos == 0 || w.steps[i].pos == w.steps[i - 1].pos + 1
    decreases |cs|
  {
    if cs != [] {
      var n := |cs| - 1;
      var w := Layout(v, opts, cs[..n], label0, labelSize0);
      LayoutRuns(v, opts, cs[..n], label0, labelSize0);
      LayoutNextPlace(v, opts, cs[..n], label0, labelSize0);
      if !w.crashed && !cs[n].special {
        var r := LayoutStep(v, opts, w, cs[n]);
        assert r.steps[|w.steps|].pos == w.pagecards;
      }
    }
  }

  /** `k * g >= g` for a positive multiplier. */
  lemma MulAtLeast(k: int, g: int)
    requires k >= 1 && g > 0
    ensures k * g >= g
  {
  }

  /** The remainder is the unique `r < g` with `a == q * g + r`. */
  lemma ModUnique(a: nat, g: nat, q: nat, r: nat)
    requires g > 0 && r < g && a == q * g + r
    ensures a % g == r
  {
    var q', r' := a / g, a % g;
    assert a == q' * g + r';
    if q > q' {
      MulAtLeast(q - q', g);
    } else if q < q' {
      MulAtLeast(q' - q, g);
    }
  }

  /** `(i + 1) % g` from `i % g`. */
  lemma ModStep(i: nat, g: nat)
    requires g > 0
    ensures (i + 1) % g == (if i % g + 1 == g then 0 else i % g + 1)
  {
    var q, r := i / g, i % g;
    if r + 1 == g {
      ModUnique(i + 1, g, q + 1, 0);
    } else {
      ModUnique(i + 1, g, q, r + 1);
    }
  }

  /** When `newpage` cards are disregarded, the cards simply fill the
      pages in turn: card `i` goes to place `i % (rows * columns)`. */
  lemma {:induction false} LayoutDisregarding(v: Version, opts: SortOptions, cs: seq<Checked>, label0: string, labelSize0: int)
    requires ValidGrid(opts) && Rule(v, opts) == Disregard
    ensures var w := Layout(v, opts, cs, label0, labelSize0);
            && (forall i :: 0 <= i < |w.steps| ==> w.steps[i].pos == i % Grid(opts))
            && w.pagecards == |w.steps| % Grid(opts)
    decreases |cs|
  {
    if cs != [] {
      var n := |cs| - 1;
      LayoutDisregarding(v, opts, cs[..n], label0, labelSize0);
      ModStep(|Layout(v, opts, cs[..n], label0, labelSize0).steps|, Grid(opts));
    }
  }

  /** Between two cards with no new page started after the first, the
      places run on one by one: the cards sit in different places of the
      same page. */
  lemma {:induction false} SamePageRun(steps: seq<Step>, i: nat, j: nat)
    requires i <= j < |steps|
    requires forall k :: 0 < k < |steps| ==> steps[k].pos == 0 || steps[k].pos == steps[k - 1].pos + 1
    requires forall k :: i < k <= j ==> steps[k].pos != 0
    ensures steps[j].pos == steps[i].pos + (j - i)
    decreases j - i
  {
    if i < j {
      SamePageRun(steps, i, j - 1);
    }
  }

  /** Two real cards with no new page begun between them sit in different
      cells: a page never shows two cards in one place. */
  lemma PageCellsDistinct(v: Version, opts: SortOptions, cs: seq<Checked>, label0: string, labelSize0: int,
                          i: nat, j: nat)
    requires ValidGrid(opts)
    requires var steps := Layout(v, opts, cs, label0, labelSize0).steps;
             && i < j < |steps| && forall k :: i < k <= j ==> steps[k].pos != 0
    ensures var steps := Layout(v, opts, cs, label0, labelSize0).steps;
            Cell(opts, steps[i].pos) != Cell(opts, steps[j].pos)
  {
    var steps := Layout(v, opts, cs, label0, labelSize0).steps;
    LayoutGrid(v, opts, cs, label0, labelSize0);
    SamePageRun(steps, i, j);
    CellOnPage(opts, steps[i].pos);
    CellOnPage(opts, steps[j].pos);
  }

  /** The first position that fails, if any. */
  function FirstFalse(bs: seq<bool>): (r: Option<nat>)
    ensures r.None? <==> forall i :: 0 <= i < |bs| ==> bs[i]
    ensures r.Some? ==> r.value < |bs| && !bs[r.value] && forall i :: 0 <= i < r.value ==> bs[i]
    decreases |bs|
  {
    if bs == [] then None
    else
      var n := |bs| - 1;
      match FirstFalse(bs[..n])
      case Some(i) => Some(i)
      case None => if bs[n] then None else Some(n)
  }

  /** The first failure is the first position that fails after
      positions that all pass. */
  lemma {:induction false} FirstFalseAt(bs: seq<bool>, k: nat)
    requires k < |bs| && !bs[k]
    requires forall i :: 0 <= i < k ==> bs[i]
    ensures FirstFalse(bs) == Some(k)
    decreases |bs|
  {
    var n := |bs| - 1;
    if k < n {
      FirstFalseAt(bs[..n], k);
    }
  }

  /** Which of the real cards laid out so far can be formatted. */
  function Fits(v: Version, opts: SortOptions, d: Deal, steps: seq<Step>): (r: seq<bool>)
    requires DealOk(d) && |steps| <= |d.reals|
    ensures |r| == |steps|
  {
    seq(|steps|, i requires 0 <= i < |steps| => ItemOk(v, opts, PuzzleCard(d, i), SolutionCard(d, i), steps[i]))
  }

  /** All the cards laid out so far fit exactly when they are printable. */
  lemma FitsMeans(v: Version, opts: SortOptions, d: Deal, steps: seq<Step>)
    requires DealOk(d) && |steps| <= |d.reals|
    ensures (forall i :: 0 <= i < |steps| ==> Fits(v, opts, d, steps)[i]) <==> Printable(v, opts, d, steps)
  {
    var fits := Fits(v, opts, d, steps);
    assert forall i :: 0 <= i < |steps| ==> fits[i] == ItemOk(v, opts, PuzzleCard(d, i), SolutionCard(d, i), steps[i]);
  }

  /** The card loop over a deal: the layout of its cards, stopped by the
      first card that cannot be formatted or by a `newpage` card the older
      script cannot decide on, whichever comes first. */
  function Arranged(v: Version, opts: SortOptions, d: Deal, label0: string, labelSize0: int): (r: Result<Laid, SortError>)
    requires ValidGrid(opts) && DealOk(d)
    ensures r.Ok? ==> r.value == Layout(v, opts, d.checked, label0, labelSize0)
    ensures r.Ok? ==> |r.value.steps| == |d.reals| && Printable(v, opts, d, r.value.steps)
    ensures r.Err? ==> (r.error.NoShuffleKey? || r.error.Unprintable?)
    ensures r.Ok? <==> (!Layout(v, opts, d.checked, label0, labelSize0).crashed
                        && Printable(v, opts, d, Layout(v, opts, d.checked, label0, labelSize0).steps))
  {
    var laid := Layout(v, opts, d.checked, label0, labelSize0);
    FitsMeans(v, opts, d, laid.steps);
    match FirstFalse(Fits(v, opts, d, laid.steps))
    case Some(i) => Err(Unprintable(i))
    case None => if laid.crashed then Err(NoShuffleKey) else Ok(laid)
  }

  /** The random order handed to the run is an arrangement of the real
      cards whenever the cards are shuffled. */
  predicate OrderFits(opts: SortOptions, cards: seq<Entry>, shuffle: seq<nat>) {
    opts.shuffled && Checks(cards).Ok? ==> IsPermutation(shuffle, RealCount(Checks(cards).value))
  }

  /** The deal of the cards: the presift, then the puzzle order, the
      given shuffle or the order of the data. */
  function Dealt(opts: SortOptions, cards: seq<Entry>, shuffle: seq<nat>): (r: Result<Deal, SpecialError>)
    requires OrderFits(opts, cards, shuffle)
    ensures r.Ok? <==> Checks(cards).Ok?
    ensures r.Err? ==> r == Err(Checks(cards).error)
    ensures r.Ok? ==> DealOk(r.value) && r.value.checked == Checks(cards).value
    ensures r.Ok? && !opts.shuffled ==> forall i :: 0 <= i < |r.value.order| ==> r.value.order[i] == i
  {
    match Checks(cards)
    case Err(e) => Err(e)
    case Ok(checked) =>
      var reals := RealIndices(checked);
      Ok(Deal(checked, reals, if opts.shuffled then shuffle else Identity(|reals|)))
  }

  /** `(row, col)`, counted from 1, of a place on the page. */
  function Cell(opts: SortOptions, pos: nat): (nat, nat)
    requires ValidGrid(opts)
  {
    ((pos % Grid(opts)) / opts.columns + 1, pos % opts.columns + 1)
  }

  /** `a >= b` gives `a * c >= b * c` for `c >= 0`. */
  lemma MulMonotone(a: nat, b: nat, c: nat)
    requires a >= b
    ensures a * c >= b * c
  {
    assert a * c == b * c + (a - b) * c;
  }

  /** A place on the page lies in one of the `rows` rows and one of the
      `columns` columns, and the place is read back from its cell: two
      places of a page never share a cell. */
  lemma CellOnPage(opts: SortOptions, pos: nat)
    requires ValidGrid(opts) && pos < Grid(opts)
    ensures var (row, col) := Cell(opts, pos);
            && 1 <= row <= opts.rows && 1 <= col <= opts.columns
            && pos == (row - 1) * opts.columns + (col - 1)
  {
    ModUnique(pos, Grid(opts), 0, pos);
    var q := pos / opts.columns;
    assert pos == q * opts.columns + pos % opts.columns;
    if q >= opts.rows {
      MulMonotone(q, opts.rows, opts.columns);
    }
  }

  /** The `cardnum` substitution: the number in the size `max(size - 3, 0)`,
      or nothing when cards are not numbered. */
  function CardNumber(opts: SortOptions, n: nat): string
    requires opts.numbering ==> ValidSize(NumberSize(opts.size))
  {
    if opts.numbering then SizeName(NumberSize(opts.size)) + " " + NatToString(n) else ""
  }

  /** Numbered cards carry different numbers. */
  lemma CardNumberInjective(opts: SortOptions, m: nat, n: nat)
    requires opts.numbering && ValidSize(NumberSize(opts.size))
    ensures CardNumber(opts, m) == CardNumber(opts, n) ==> m == n
  {
    var prefix := SizeName(NumberSize(opts.size)) + " ";
    assert CardNumber(opts, m)[|prefix|..] == NatToString(m);
    assert CardNumber(opts, n)[|prefix|..] == NatToString(n);
    NatToStringInjective(m, n);
  }

  /** The substitutions of one item: its cell, its number, and the
      formatted entry with its label. */
  function ItemSubs(cell: (nat, nat), cardnum: string, f: Formatted): (r: Subst)
    ensures r.Keys == {"rownum", "colnum", "cardnum", "text", "label"}
  {
    map["rownum" := NatToString(cell.0), "colnum" := NatToString(cell.1), "cardnum" := cardnum,
        "text" := f.text, "label" := f.cardLabel]
  }

  /** The number on item `i` of the puzzle (`i + 1`) or of the solution
      (one more than the puzzle position of the same card). */
  function Number(d: Deal, i: nat, solution: bool): nat
    requires DealOk(d) && i < |d.reals|
  {
    if solution then SolutionNumber(d, i) else PuzzleNumber(i)
  }

  /** The entry of item `i` formatted for TikZ cards or for Markdown, in
      the puzzle or the solution view. */
  function Shown(v: Version, opts: SortOptions, d: Deal, i: nat, step: Step, style: Style, solution: bool): Formatted
    requires DealOk(d) && i < |d.reals| && ItemOk(v, opts, PuzzleCard(d, i), SolutionCard(d, i), step)
    requires solution ==> opts.solution
  {
    var card := if solution then SolutionCard(d, i) else PuzzleCard(d, i);
    if style == Md then FormatEntry(v, card, 0, Md, step.labelText, 0, "&nbsp;", solution)
    else FormatEntry(v, card, opts.size, Tikz, step.labelText, step.labelSize, "(BLANK)", solution)
  }

  /** The text of item `i`: the template's item section with the item's
      substitutions. */
  function ItemText(v: Version, opts: SortOptions, d: Deal, i: nat, step: Step, item: string, style: Style, solution: bool): string
    requires ValidGrid(opts) && DealOk(d) && i < |d.reals| && ItemOk(v, opts, PuzzleCard(d, i), SolutionCard(d, i), step)
    requires solution ==> opts.solution
  {
    DoSub(item, ItemSubs(Cell(opts, step.pos), CardNumber(opts, Number(d, i, solution)),
                         Shown(v, opts, d, i, step, style, solution)))
  }

  /** What comes before item `i` at place `pos`: at the first place of a
      page, the end of the previous page (if any) and the start of a new
      one. */
  function PageBreak(endPage: string, beginPage: string, i: nat, pos: nat): (r: string)
    ensures pos != 0 ==> r == ""
    ensures pos == 0 && i == 0 ==> r == beginPage
    ensures pos == 0 && i > 0 ==> r == endPage + beginPage
  {
    if pos == 0 then (if i > 0 then endPage else "") + beginPage else ""
  }

  /** `start` followed by the items of the real cards laid out, each
      after its page break (Markdown has no pages: its breaks are empty). */
  function Items(v: Version, opts: SortOptions, d: Deal, steps: seq<Step>, start: string, item: string,
                 endPage: string, beginPage: string, style: Style, solution: bool): (r: string)
    requires ValidGrid(opts) && DealOk(d) && Printable(v, opts, d, steps)
    requires solution ==> opts.solution
    ensures start <= r
    ensures steps == [] ==> r == start
    decreases |steps|
  {
    if steps == [] then start
    else
      var n := |steps| - 1;
      Items(v, opts, d, steps[..n], start, item, endPage, beginPage, style, solution)
      + PageBreak(endPage, beginPage, n, steps[n].pos)
      + ItemText(v, opts, d, n, steps[n], item, style, solution)
  }

  /** The four bodies: the TikZ and Markdown puzzle and, when produced,
      the TikZ and Markdown solution. */
  datatype Bodies = Bodies(puz: string, puzMd: string, sol: Option<string>, solMd: Option<string>)

  /** The bodies built from the laid-out cards and the split templates. */
  function Rendered(v: Version, opts: SortOptions, d: Deal, steps: seq<Step>,
                    puz: TexTemplate, sol: TexTemplate, puzMd: MdTemplate, solMd: MdTemplate): (r: Bodies)
    requires ValidGrid(opts) && DealOk(d) && Printable(v, opts, d, steps)
    ensures r.sol.Some? <==> opts.solution
    ensures r.solMd.Some? <==> opts.solution
  {
    Bodies(Items(v, opts, d, steps, puz.beginDocument, puz.item, puz.endPage, puz.beginPage, Tikz, false)
             + puz.endPage + puz.endDocument,
           Items(v, opts, d, steps, puzMd.beginDocument, puzMd.item, "", "", Md, false) + puzMd.endDocument,
           if opts.solution then
             Some(Items(v, opts, d, steps, sol.beginDocument, sol.item, sol.endPage, sol.beginPage, Tikz, true)
                  + sol.endPage + sol.endDocument)
           else None,
           if opts.solution then
             Some(Items(v, opts, d, steps, solMd.beginDocument, solMd.item, "", "", Md, true) + solMd.endDocument)
           else None)
  }

  /** The two substitution dictionaries after the card sort. */
  datatype SortOut = SortOut(tex: Subst, md: Subst)

  /** `dsubs` and `dsubsmd` with the title, the grid and the bodies. */
  function Filled(dsubs: Subst, dsubsmd: Subst, titles: (string, string), opts: SortOptions, b: Bodies): (r: SortOut)
    ensures b.sol.None? ==> r.tex.Keys == dsubs.Keys + {"cardtitle", "rows", "columns", "puzbody"}
    ensures b.sol.Some? ==> r.tex.Keys == dsubs.Keys + {"cardtitle", "rows", "columns", "puzbody", "solbody"}
    ensures b.solMd.None? ==> r.md.Keys == dsubsmd.Keys + {"cardtitle", "rows", "columns", "puzbody"}
    ensures b.solMd.Some? ==> r.md.Keys == dsubsmd.Keys + {"cardtitle", "rows", "columns", "puzbody", "solbody"}
    ensures r.tex["cardtitle"] == titles.0 && r.md["cardtitle"] == titles.1
    ensures r.tex["rows"] == r.md["rows"] == NatToString(opts.rows)
    ensures r.tex["columns"] == r.md["columns"] == NatToString(opts.columns)
    ensures r.tex["puzbody"] == b.puz && r.md["puzbody"] == b.puzMd
    ensures b.sol.Some? ==> r.tex["solbody"] == b.sol.value
    ensures b.solMd.Some? ==> r.md["solbody"] == b.solMd.value
  {
    SortOut(FilledOne(dsubs, titles.0, opts, b.puz, b.sol), FilledOne(dsubsmd, titles.1, opts, b.puzMd, b.solMd))
  }

  /** One dictionary with the title, the grid, the puzzle body and, when
      there is one, the solution body. */
  function FilledOne(subs: Subst, title: string, opts: SortOptions, puz: string, sol: Option<string>): (r: Subst)
    ensures sol.None? ==> r.Keys == subs.Keys + {"cardtitle", "rows", "columns", "puzbody"}
    ensures sol.Some? ==> r.Keys == subs.Keys + {"cardtitle", "rows", "columns", "puzbody", "solbody"}
    ensures r["cardtitle"] == title && r["puzbody"] == puz
    ensures r["rows"] == NatToString(opts.rows) && r["columns"] == NatToString(opts.columns)
    ensures sol.Some? ==> r["solbody"] == sol.value
  {
    var filled := subs["cardtitle" := title]["rows" := NatToString(opts.rows)]
                      ["columns" := NatToString(opts.columns)]["puzbody" := puz];
    if sol.Some? then filled["solbody" := sol.value] else filled
  }

  /** `make_cardsort_cards`: the title first, then the deal of the cards,
      the card loop, and the bodies. */
  function CardsortCards(v: Version, opts: SortOptions, title: Option<string>, titleSize: Option<int>,
                         label0: string, labelSize0: int, cards: seq<Entry>, shuffle: seq<nat>,
                         puz: TexTemplate, sol: TexTemplate, puzMd: MdTemplate, solMd: MdTemplate,
                         dsubs: Subst, dsubsmd: Subst): (r: Result<SortOut, SortError>)
    requires ValidGrid(opts) && OrderFits(opts, cards, shuffle)
    ensures CardTitle(title, titleSize, labelSize0).Err? ==> r == Err(CardTitle(title, titleSize, labelSize0).error)
    ensures CardTitle(title, titleSize, labelSize0).Ok? && Checks(cards).Err? ==> r == Err(CheckFailed(Checks(cards).error))
    ensures r.Ok? ==> CardTitle(title, titleSize, labelSize0).Ok? && Checks(cards).Ok?
    ensures r.Ok? && !opts.solution ==> r.value.tex.Keys == dsubs.Keys + {"cardtitle", "rows", "columns", "puzbody"}
    ensures r.Ok? && opts.solution ==>
              r.value.tex.Keys == dsubs.Keys + {"cardtitle", "rows", "columns", "puzbody", "solbody"}
              && r.value.md.Keys == dsubsmd.Keys + {"cardtitle", "rows", "columns", "puzbody", "solbody"}
  {
    match CardTitle(title, titleSize, labelSize0)
    case Err(e) => Err(e)
    case Ok(titles) =>
      match Dealt(opts, cards, shuffle)
      case Err(e) => Err(CheckFailed(e))
      case Ok(d) =>
        match Arranged(v, opts, d, label0, labelSize0)
        case Err(e) => Err(e)
        case Ok(laid) => Ok(Filled(dsubs, dsubsmd, titles, opts, Rendered(v, opts, d, laid.steps, puz, sol, puzMd, solMd)))
  }

  /** Once a prefix of the cards fails its check, so do all of them, with
      the same error. */
  lemma {:induction false} ChecksStop(cards: seq<Entry>, m: nat)
    requires m <= |cards| && Checks(cards[..m]).Err?
    ensures Checks(cards) == Checks(cards[..m])
    decreases |cards|
  {
    if m < |cards| {
      var n := |cards| - 1;
      assert cards[..n][..m] == cards[..m];
      ChecksStop(cards[..n], m);
      ChecksStopStep(cards, n);
    } else {
      assert cards[..m] == cards;
    }
  }

  /** A failure before the last card is the failure of all the cards. */
  lemma ChecksStopStep(cards: seq<Entry>, n: nat)
    requires n + 1 == |cards| && Checks(cards[..n]).Err?
    ensures Checks(cards) == Checks(cards[..n])
  {
  }

  /** The presift: every card is checked (and repaired) in turn, and the
      indices of the real cards are collected. */
  method Presift(cards: seq<Entry>) returns (r: Result<(seq<Checked>, seq<nat>), SpecialError>)
    ensures Checks(cards).Err? ==> r == Err(Checks(cards).error)
    ensures Checks(cards).Ok? ==> r == Ok((Checks(cards).value, RealIndices(Checks(cards).value)))
  {
    var checked: seq<Checked> := [];
    var reals: seq<nat> := [];
    for k := 0 to |cards|
      invariant Checks(cards[..k]) == Ok(checked)
      invariant reals == RealIndices(checked)
    {
      assert cards[..k + 1][..k] == cards[..k];
      match CheckSpecial(cards[k]) {
        case Err(e) =>
          ChecksStop(cards, k + 1);
          return Err(e);
        case Ok(c) =>
          assert (checked + [c])[..|checked|] == checked;
          checked := checked + [c];
          if !c.special {
            reals := reals + [k];
          }
      }
    }
    assert cards[..|cards|] == cards;
    return Ok((checked, reals));
  }

  /** One more real card adds its page break and its item. */
  lemma ItemsSnoc(v: Version, opts: SortOptions, d: Deal, steps: seq<Step>, step: Step, start: string, item: string,
                  endPage: string, beginPage: string, style: Style, solution: bool)
    requires ValidGrid(opts) && DealOk(d) && Printable(v, opts, d, steps + [step])
    requires solution ==> opts.solution
    ensures Printable(v, opts, d, steps)
    ensures Items(v, opts, d, steps + [step], start, item, endPage, beginPage, style, solution)
         == Items(v, opts, d, steps, start, item, endPage, beginPage, style, solution)
            + PageBreak(endPage, beginPage, |steps|, step.pos)
            + ItemText(v, opts, d, |steps|, step, item, style, solution)
  {
    assert (steps + [step])[..|steps|] == steps;
  }

  /** Without pages, one more real card adds just its item. */
  lemma ItemsSnocNoPages(v: Version, opts: SortOptions, d: Deal, steps: seq<Step>, step: Step, start: string, item: string,
                         style: Style, solution: bool)
    requires ValidGrid(opts) && DealOk(d) && Printable(v, opts, d, steps + [step])
    requires solution ==> opts.solution
    ensures Printable(v, opts, d, steps)
    ensures Items(v, opts, d, steps + [step], start, item, "", "", style, solution)
         == Items(v, opts, d, steps, start, item, "", "", style, solution)
            + ItemText(v, opts, d, |steps|, step, item, style, solution)
  {
    ItemsSnoc(v, opts, d, steps, step, start, item, "", "", style, solution);
    var before := Items(v, opts, d, steps, start, item, "", "", style, solution);
    assert before + PageBreak("", "", |steps|, step.pos) == before;
  }

  /** A printable card added to printable cards. */
  lemma PrintableSnoc(v: Version, opts: SortOptions, d: Deal, steps: seq<Step>, step: Step)
    requires DealOk(d) && Printable(v, opts, d, steps) && |steps| < |d.reals|
    requires ItemOk(v, opts, PuzzleCard(d, |steps|), SolutionCard(d, |steps|), step)
    ensures Printable(v, opts, d, steps + [step])
  {
    assert forall i :: 0 <= i < |steps| ==> (steps + [step])[i] == steps[i];
  }

  /** A `newpage` card that stops the loop, after printable cards, stops
      the whole run. */
  lemma CrashStops(v: Version, opts: SortOptions, d: Deal, j: nat, label0: string, labelSize0: int)
    requires ValidGrid(opts) && DealOk(d) && j <= |d.checked|
    requires Layout(v, opts, d.checked[..j], label0, labelSize0).crashed
    requires Printable(v, opts, d, Layout(v, opts, d.checked[..j], label0, labelSize0).steps)
    ensures Arranged(v, opts, d, label0, labelSize0) == Err(NoShuffleKey)
  {
    LayoutPrefix(v, opts, d.checked, j, label0, labelSize0);
    var laid := Layout(v, opts, d.checked, label0, labelSize0);
    FitsMeans(v, opts, d, laid.steps);
  }

  /** A real card that cannot be formatted, after printable cards, stops
      the whole run at its position. */
  lemma UnprintableStops(v: Version, opts: SortOptions, d: Deal, j: nat, steps: seq<Step>, step: Step,
                         label0: string, labelSize0: int)
    requires ValidGrid(opts) && DealOk(d) && j <= |d.checked|
    requires Layout(v, opts, d.checked[..j], label0, labelSize0).steps == steps + [step]
    requires |steps| < |d.reals| && Printable(v, opts, d, steps)
    requires !ItemOk(v, opts, PuzzleCard(d, |steps|), SolutionCard(d, |steps|), step)
    ensures Arranged(v, opts, d, label0, labelSize0) == Err(Unprintable(|steps|))
  {
    LayoutPrefix(v, opts, d.checked, j, label0, labelSize0);
    var all := Layout(v, opts, d.checked, label0, labelSize0).steps;
    FirstUnfit(v, opts, d, all, steps, step);
  }

  /** The first card of `all` that cannot be formatted is the one after
      the printable `steps`. */
  lemma FirstUnfit(v: Version, opts: SortOptions, d: Deal, all: seq<Step>, steps: seq<Step>, step: Step)
    requires DealOk(d) && |all| <= |d.reals| && steps + [step] <= all
    requires Printable(v, opts, d, steps)
    requires !ItemOk(v, opts, PuzzleCard(d, |steps|), SolutionCard(d, |steps|), step)
    ensures FirstFalse(Fits(v, opts, d, all)) == Some(|steps|)
  {
    var fits := Fits(v, opts, d, all);
    assert forall i :: 0 <= i < |steps| ==> all[i] == (steps + [step])[i] == steps[i];
    assert forall i :: 0 <= i < |steps| ==> fits[i];
    assert all[|steps|] == (steps + [step])[|steps|] == step;
    FirstFalseAt(fits, |steps|);
  }

  /** One more card of the loop. */
  lemma LayoutSnoc(v: Version, opts: SortOptions, cs: seq<Checked>, j: nat, label0: string, labelSize0: int)
    requires ValidGrid(opts) && j < |cs| && !Layout(v, opts, cs[..j], label0, labelSize0).crashed
    ensures Layout(v, opts, cs[..j + 1], label0, labelSize0) == LayoutStep(v, opts, Layout(v, opts, cs[..j], label0, labelSize0), cs[j])
  {
    assert cs[..j + 1][..j] == cs[..j];
  }

  /** A run that neither stops on a `newpage` card nor meets a card that
      cannot be formatted lays out every card. */
  lemma ArrangedOk(v: Version, opts: SortOptions, d: Deal, label0: string, labelSize0: int)
    requires ValidGrid(opts) && DealOk(d)
    requires !Layout(v, opts, d.checked, label0, labelSize0).crashed
    requires Printable(v, opts, d, Layout(v, opts, d.checked, label0, labelSize0).steps)
    ensures Arranged(v, opts, d, label0, labelSize0) == Ok(Layout(v, opts, d.checked, label0, labelSize0))
  {
  }

  /** The four bodies as far as the loop has built them. */
  datatype Running = Running(puz: string, puzMd: string, sol: string, solMd: string)

  /** The bodies built so far hold the begin sections and the items of the
      real cards laid out so far (the solution ones only when produced). */
  predicate RunningOk(v: Version, opts: SortOptions, d: Deal, steps: seq<Step>, run: Running,
                      puz: TexTemplate, sol: TexTemplate, puzMd: MdTemplate, solMd: MdTemplate)
    requires ValidGrid(opts) && DealOk(d) && Printable(v, opts, d, steps)
  {
    && run.puz == Items(v, opts, d, steps, puz.beginDocument, puz.item, puz.endPage, puz.beginPage, Tikz, false)
    && run.puzMd == Items(v, opts, d, steps, puzMd.beginDocument, puzMd.item, "", "", Md, false)
    && (opts.solution ==>
          run.sol == Items(v, opts, d, steps, sol.beginDocument, sol.item, sol.endPage, sol.beginPage, Tikz, true))
    && (opts.solution ==>
          run.solMd == Items(v, opts, d, steps, solMd.beginDocument, solMd.item, "", "", Md, true))
  }

  /** A real card's page break and items, added to the bodies. */
  method AddItem(v: Version, opts: SortOptions, d: Deal, ghost steps: seq<Step>, i: nat, step: Step, run: Running,
                 puz: TexTemplate, sol: TexTemplate, puzMd: MdTemplate, solMd: MdTemplate)
    returns (next: Running)
    requires ValidGrid(opts) && DealOk(d) && Printable(v, opts, d, steps + [step])
    requires i == |steps| && Printable(v, opts, d, steps) && RunningOk(v, opts, d, steps, run, puz, sol, puzMd, solMd)
    ensures RunningOk(v, opts, d, steps + [step], next, puz, sol, puzMd, solMd)
  {
    ItemsSnoc(v, opts, d, steps, step, puz.beginDocument, puz.item, puz.endPage, puz.beginPage, Tikz, false);
    ItemsSnocNoPages(v, opts, d, steps, step, puzMd.beginDocument, puzMd.item, Md, false);
    next := run.(puz := run.puz + PageBreak(puz.endPage, puz.beginPage, i, step.pos)
                        + ItemText(v, opts, d, i, step, puz.item, Tikz, false),
                 puzMd := run.puzMd + ItemText(v, opts, d, i, step, puzMd.item, Md, false));
    if opts.solution {
      ItemsSnoc(v, opts, d, steps, step, sol.beginDocument, sol.item, sol.endPage, sol.beginPage, Tikz, true);
      ItemsSnocNoPages(v, opts, d, steps, step, solMd.beginDocument, solMd.item, Md, true);
      next := next.(sol := run.sol + PageBreak(sol.endPage, sol.beginPage, i, step.pos)
                           + ItemText(v, opts, d, i, step, sol.item, Tikz, true),
                    solMd := run.solMd + ItemText(v, opts, d, i, step, solMd.item, Md, true));
    }
  }

  /** The card loop before checked card `j`: the layout of the cards so
      far, none of which stopped the run, and the bodies built from them. */
  predicate LoopAt(v: Version, opts: SortOptions, d: Deal, label0: string, labelSize0: int, j: nat, laid: Laid,
                   run: Running, puz: TexTemplate, sol: TexTemplate, puzMd: MdTemplate, solMd: MdTemplate)
    requires ValidGrid(opts) && DealOk(d)
  {
    && j <= |d.checked|
    && laid == Layout(v, opts, d.checked[..j], label0, labelSize0) && !laid.crashed
    && Printable(v, opts, d, laid.steps)
    && RunningOk(v, opts, d, laid.steps, run, puz, sol, puzMd, solMd)
  }

  /** One turn of the card loop at checked card `j`: either the run stops
      there, with the error of the whole run, or the layout and the bodies
      move on by that card. */
  method Visit(v: Version, opts: SortOptions, d: Deal, j: nat, label0: string, labelSize0: int,
               laid: Laid, run: Running, puz: TexTemplate, sol: TexTemplate, puzMd: MdTemplate, solMd: MdTemplate)
    returns (stop: Option<SortError>, next: Laid, nextRun: Running)
    requires ValidGrid(opts) && DealOk(d) && j < |d.checked|
    requires laid == Layout(v, opts, d.checked[..j], label0, labelSize0) && !laid.crashed
    requires Printable(v, opts, d, laid.steps) && RunningOk(v, opts, d, laid.steps, run, puz, sol, puzMd, solMd)
    ensures stop.Some? ==> Arranged(v, opts, d, label0, labelSize0) == Err(stop.value)
    ensures stop.None? ==> next == Layout(v, opts, d.checked[..j + 1], label0, labelSize0) && !next.crashed
    ensures stop.None? ==> Printable(v, opts, d, next.steps)
                           && RunningOk(v, opts, d, next.steps, nextRun, puz, sol, puzMd, solMd)
  {
    var ch := d.checked[j];
    LayoutSnoc(v, opts, d.checked, j, label0, labelSize0);
    next := LayoutStep(v, opts, laid, ch);
    nextRun := run;
    if next.crashed {
      CrashStops(v, opts, d, j + 1, label0, labelSize0);
      return Some(NoShuffleKey), next, nextRun;
    }
    if !ch.special {
      stop, nextRun := VisitReal(v, opts, d, j, label0, labelSize0, laid, run, puz, sol, puzMd, solMd);
    } else {
      stop := None;
    }
  }

  /** The loop state after card `j`, from its parts. */
  lemma LoopAtNext(v: Version, opts: SortOptions, d: Deal, label0: string, labelSize0: int, j: nat, next: Laid,
                   run: Running, puz: TexTemplate, sol: TexTemplate, puzMd: MdTemplate, solMd: MdTemplate)
    requires ValidGrid(opts) && DealOk(d) && j < |d.checked|
    requires next == Layout(v, opts, d.checked[..j + 1], label0, labelSize0) && !next.crashed
    requires Printable(v, opts, d, next.steps) && RunningOk(v, opts, d, next.steps, run, puz, sol, puzMd, solMd)
    ensures LoopAt(v, opts, d, label0, labelSize0, j + 1, next, run, puz, sol, puzMd, solMd)
  {
  }

  /** One real card of the card loop: the run stops if it cannot be
      formatted, else its item goes to each body. */
  method VisitReal(v: Version, opts: SortOptions, d: Deal, j: nat, label0: string, labelSize0: int,
                   laid: Laid, run: Running, puz: TexTemplate, sol: TexTemplate, puzMd: MdTemplate, solMd: MdTemplate)
    returns (stop: Option<SortError>, nextRun: Running)
    requires ValidGrid(opts) && DealOk(d) && j < |d.checked| && !d.checked[j].special
    requires laid == Layout(v, opts, d.checked[..j], label0, labelSize0) && !laid.crashed
    requires Printable(v, opts, d, laid.steps) && RunningOk(v, opts, d, laid.steps, run, puz, sol, puzMd, solMd)
    ensures var steps := laid.steps + [Step(laid.pagecards, laid.labelText, laid.labelSize)];
            && (stop.Some? ==> Arranged(v, opts, d, label0, labelSize0) == Err(stop.value))
            && (stop.None? ==> Printable(v, opts, d, steps) && RunningOk(v, opts, d, steps, nextRun, puz, sol, puzMd, solMd))
  {
    var i := |laid.steps|;
    var step := Step(laid.pagecards, laid.labelText, laid.labelSize);
    LayoutSnoc(v, opts, d.checked, j, label0, labelSize0);
    RealCountPrefix(d.checked[..j + 1], d.checked);
    if !ItemOk(v, opts, PuzzleCard(d, i), SolutionCard(d, i), step) {
      UnprintableStops(v, opts, d, j + 1, laid.steps, step, label0, labelSize0);
      return Some(Unprintable(i)), run;
    }
    PrintableSnoc(v, opts, d, laid.steps, step);
    nextRun := AddItem(v, opts, d, laid.steps, i, step, run, puz, sol, puzMd, solMd);
    stop := None;
  }

  /** The card loop: every checked card in turn, special cards changing
      the label, the label size or the page, real cards adding their item
      to each body. */
  method CardLoop(v: Version, opts: SortOptions, d: Deal, label0: string, labelSize0: int,
                  puz: TexTemplate, sol: TexTemplate, puzMd: MdTemplate, solMd: MdTemplate)
    returns (r: Result<Running, SortError>)
    requires ValidGrid(opts) && DealOk(d)
    ensures r.Err? ==> Arranged(v, opts, d, label0, labelSize0) == Err(r.error)
    ensures r.Ok? ==> Arranged(v, opts, d, label0, labelSize0).Ok?
    ensures r.Ok? ==> RunningOk(v, opts, d, Arranged(v, opts, d, label0, labelSize0).value.steps, r.value,
                                puz, sol, puzMd, solMd)
  {
    var run := Running(puz.beginDocument, puzMd.beginDocument, "", "");
    if opts.solution {
      run := run.(sol := sol.beginDocument, solMd := solMd.beginDocument);
    }
    var laid := Laid(0, label0, labelSize0, [], false);
    assert d.checked[..0] == [];
    for j := 0 to |d.checked|
      invariant LoopAt(v, opts, d, label0, labelSize0, j, laid, run, puz, sol, puzMd, solMd)
    {
      var stop, next, nextRun := Visit(v, opts, d, j, label0, labelSize0, laid, run, puz, sol, puzMd, solMd);
      if stop.Some? {
        return Err(stop.value);
      }
      LoopAtNext(v, opts, d, label0, labelSize0, j, next, nextRun, puz, sol, puzMd, solMd);
      laid, run := next, nextRun;
    }
    LoopDone(v, opts, d, label0, labelSize0, laid);
    return Ok(run);
  }

  /** The card loop that took every card without stopping has laid them
      all out. */
  lemma LoopDone(v: Version, opts: SortOptions, d: Deal, label0: string, labelSize0: int, laid: Laid)
    requires ValidGrid(opts) && DealOk(d)
    requires laid == Layout(v, opts, d.checked[..|d.checked|], label0, labelSize0) && !laid.crashed
    requires Printable(v, opts, d, laid.steps)
    ensures Arranged(v, opts, d, label0, labelSize0) == Ok(laid)
  {
    assert d.checked[..|d.checked|] == d.checked;
    ArrangedOk(v, opts, d, label0, labelSize0);
  }

  /** The bodies of a deal: the card loop, then the end sections. */
  method CardBodies(v: Version, opts: SortOptions, d: Deal, label0: string, labelSize0: int,
                    puz: TexTemplate, sol: TexTemplate, puzMd: MdTemplate, solMd: MdTemplate)
    returns (r: Result<Bodies, SortError>)
    requires ValidGrid(opts) && DealOk(d)
    ensures Arranged(v, opts, d, label0, labelSize0).Err? ==> r == Err(Arranged(v, opts, d, label0, labelSize0).error)
    ensures Arranged(v, opts, d, label0, labelSize0).Ok? ==>
              r == Ok(Rendered(v, opts, d, Arranged(v, opts, d, label0, labelSize0).value.steps, puz, sol, puzMd, solMd))
  {
    var loop := CardLoop(v, opts, d, label0, labelSize0, puz, sol, puzMd, solMd);
    if loop.Err? {
      return Err(loop.error);
    }
    var run := loop.value;
    var puzbody := run.puz + puz.endPage + puz.endDocument;
    var puzbodymd := run.puzMd + puzMd.endDocument;
    if opts.solution {
      var solbody := run.sol + sol.endPage + sol.endDocument;
      var solbodymd := run.solMd + solMd.endDocument;
      return Ok(Bodies(puzbody, puzbodymd, Some(solbody), Some(solbodymd)));
    }
    return Ok(Bodies(puzbody, puzbodymd, None, None));
  }

  /** The deal: the presift, then the puzzle order, the shuffle handed in
      or the order of the data. */
  method DealCards(opts: SortOptions, cards: seq<Entry>, shuffle: seq<nat>) returns (r: Result<Deal, SpecialError>)
    requires OrderFits(opts, cards, shuffle)
    ensures r == Dealt(opts, cards, shuffle)
  {
    var sifted := Presift(cards);
    if sifted.Err? {
      return Err(sifted.error);
    }
    var (checked, reals) := sifted.value;
    var order: seq<nat>;
    if opts.shuffled {
      order := shuffle;
    } else {
      order := Identity(|reals|);
    }
    return Ok(Deal(checked, reals, order));
  }

  /** `make_cardsort_cards`: the card title, the presift, the puzzle order
      (the shuffle handed in, or the order of the data), the card loop and
      the substitutions it leaves behind. */
  method MakeCardsortCards(v: Version, opts: SortOptions, title: Option<string>, titleSize: Option<int>,
                           label0: string, labelSize0: int, cards: seq<Entry>, shuffle: seq<nat>,
                           puz: TexTemplate, sol: TexTemplate, puzMd: MdTemplate, solMd: MdTemplate,
                           dsubs: Subst, dsubsmd: Subst)
    returns (r: Result<SortOut, SortError>)
    requires ValidGrid(opts) && OrderFits(opts, cards, shuffle)
    ensures r == CardsortCards(v, opts, title, titleSize, label0, labelSize0, cards, shuffle,
                               puz, sol, puzMd, solMd, dsubs, dsubsmd)
  {
    var titles := CardTitle(title, titleSize, labelSize0);
    if titles.Err? {
      return Err(titles.error);
    }
    var dealt := DealCards(opts, cards, shuffle);
    if dealt.Err? {
      return Err(CheckFailed(dealt.error));
    }
    var d := dealt.value;
    var bodies := CardBodies(v, opts, d, label0, labelSize0, puz, sol, puzMd, solMd);
    CardsortCardsFrom(v, opts, title, titleSize, label0, labelSize0, cards, shuffle,
                      puz, sol, puzMd, solMd, dsubs, dsubsmd, titles.value, d);
    if bodies.Err? {
      return Err(bodies.error);
    }
    return Ok(Filled(dsubs, dsubsmd, titles.value, opts, bodies.value));
  }

  /** Past the card title and the deal, the run is the card loop's. */
  lemma CardsortCardsFrom(v: Version, opts: SortOptions, title: Option<string>, titleSize: Option<int>,
                          label0: string, labelSize0: int, cards: seq<Entry>, shuffle: seq<nat>,
                          puz: TexTemplate, sol: TexTemplate, puzMd: MdTemplate, solMd: MdTemplate,
                          dsubs: Subst, dsubsmd: Subst, titles: (string, string), d: Deal)
    requires ValidGrid(opts) && OrderFits(opts, cards, shuffle)
    requires CardTitle(title, titleSize, labelSize0) == Ok(titles) && Dealt(opts, cards, shuffle) == Ok(d)
    ensures var laid := Arranged(v, opts, d, label0, labelSize0);
            CardsortCards(v, opts, title, titleSize, label0, labelSize0, cards, shuffle,
                          puz, sol, puzMd, solMd, dsubs, dsubsmd)
            == if laid.Err? then Err(laid.error)
               else Ok(Filled(dsubs, dsubsmd, titles, opts, Rendered(v, opts, d, laid.value.steps, puz, sol, puzMd, solMd)))
  {
  }
}
