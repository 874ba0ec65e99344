/** Jigsaw pieces: resolving the layout's `Qn`/`An`/`En` references to
    entries, placing each solution piece at a shuffled puzzle position with
    a random rotation, computing where its card number points, and
    producing the TikZ arguments and Markdown rows for the pieces. */
module Pieces {
  import opened Wrappers
  import opened Text
  import opened Yaml
  import opened Entries
  import opened Formatting
  import opened Permutations

  datatype Shape = Triangle | Square {
    /** Entries per piece. */
    function Sides(): nat {
      if Triangle? then 3 else 4
    }
    /** Degrees turned by one anticlockwise rotation step. */
    function Turn(): int {
      if Triangle? then 120 else 90
    }
  }

  /** A puzzle slot from the layout: the direction of its base side and
      the direction of its card number. */
  datatype Slot = Slot(base: int, numberAngle: int)

  /** The piece layout of one shape, as read from the layout file. */
  datatype ShapeLayout = ShapeLayout(cards: seq<seq<string>>, solutionBase: seq<int>, puzzleSlots: seq<Slot>)

  /** A placed piece: its entries in drawing order, its printed number and
      the angle of that number. */
  datatype Piece = Piece(entries: seq<Entry>, number: string, angle: int)

  datatype LayoutError =
    | BadReference(ref: string)   // int() fails, index out of range, or unknown letter
    | MissingTriangleCards        // a square layout without `triangleSolutionCards`
    | Unprintable                 // the formatter raises on an entry, or the number size is out of range

  /** Python's `xs[k]` for a possibly negative index. */
  predicate ValidIndex(k: int, len: nat) {
    -(len as int) <= k < len
  }

  function PyIndex(k: int, len: nat): (r: nat)
    requires ValidIndex(k, len)
    ensures r < len
  {
    if k < 0 then k + len else k
  }

  /** The entry a reference of kind `kind` names by Python index `k`, if
      any: the question or answer of a pair, or an edge. */
  function Pick(kind: char, k: int, pairs: seq<Pair>, edges: seq<Entry>): (r: Option<Entry>)
    ensures r.Some? ==> kind in "QAE"
    ensures 0 <= k ==>
              && (kind == 'Q' && k < |pairs| ==> r == Some(pairs[k].question))
              && (kind == 'A' && k < |pairs| ==> r == Some(pairs[k].answer))
              && (kind == 'E' && k < |edges| ==> r == Some(edges[k]))
              && (kind in "QA" && k >= |pairs| ==> r.None?)
              && (kind == 'E' && k >= |edges| ==> r.None?)
  {
    if kind == 'Q' && ValidIndex(k, |pairs|) then Some(pairs[PyIndex(k, |pairs|)].question)
    else if kind == 'A' && ValidIndex(k, |pairs|) then Some(pairs[PyIndex(k, |pairs|)].answer)
    else if kind == 'E' && ValidIndex(k, |edges|) then Some(edges[PyIndex(k, |edges|)])
    else None
  }

  /** One layout reference: `Qn` is the question of pair `n`, `An` its
      answer, `En` edge `n`, counted from 1; as in Python, `n - 1` may also
      be a negative index.  Anything else stops the generator. */
  function ResolveRef(ref: string, pairs: seq<Pair>, edges: seq<Entry>): (r: Result<Entry, LayoutError>)
    ensures r.Err? ==> r.error == BadReference(ref)
    ensures r.Ok? ==> |ref| >= 2 && ref[0] in "QAE" && ParseInt(ref[1..]).Some?
    ensures |ref| >= 1 && ParseInt(ref[1..]).Some? && 1 <= ParseInt(ref[1..]).value ==>
              var n := ParseInt(ref[1..]).value;
              && (ref[0] == 'Q' && n <= |pairs| ==> r == Ok(pairs[n - 1].question))
              && (ref[0] == 'A' && n <= |pairs| ==> r == Ok(pairs[n - 1].answer))
              && (ref[0] == 'E' && n <= |edges| ==> r == Ok(edges[n - 1]))
              && (ref[0] in "QA" && n > |pairs| ==> r.Err?)
              && (ref[0] == 'E' && n > |edges| ==> r.Err?)
  {
    if |ref| == 0 then Err(BadReference(ref))
    else match ParseInt(ref[1..])
      case None => Err(BadReference(ref))
      case Some(n) =>
        match Pick(ref[0], n - 1, pairs, edges)
        case None => Err(BadReference(ref))
        case Some(e) => Ok(e)
  }

  /** One solution card with its references replaced by entries. */
  method ResolveCard(refs: seq<string>, pairs: seq<Pair>, edges: seq<Entry>)
    returns (r: Result<seq<Entry>, LayoutError>)
    ensures r.Err? ==> r.error.BadReference?
    ensures r.Ok? <==> forall k :: 0 <= k < |refs| ==> ResolveRef(refs[k], pairs, edges).Ok?
    ensures r.Ok? ==> |r.value| == |refs|
    ensures r.Ok? ==> forall k :: 0 <= k < |refs| ==> Ok(r.value[k]) == ResolveRef(refs[k], pairs, edges)
  {
    var card: seq<Entry> := [];
    var k := 0;
    while k < |refs|
      invariant 0 <= k <= |refs| && |card| == k
      invariant forall k' :: 0 <= k' < k ==> Ok(card[k']) == ResolveRef(refs[k'], pairs, edges)
    {
      var e := ResolveRef(refs[k], pairs, edges);
      if e.Err? {
        return Err(e.error);
      }
      card := card + [e.value];
      k := k + 1;
    }
    return Ok(card);
  }

  /** Every reference of the layout resolves. */
  predicate AllResolve(refs: seq<seq<string>>, pairs: seq<Pair>, edges: seq<Entry>) {
    forall i, k :: 0 <= i < |refs| && 0 <= k < |refs[i]| ==> ResolveRef(refs[i][k], pairs, edges).Ok?
  }

  /** Every reference of the layout was replaced by its entry. */
  predicate Resolved(refs: seq<seq<string>>, pairs: seq<Pair>, edges: seq<Entry>, cards: seq<seq<Entry>>) {
    && |cards| == |refs|
    && (forall i :: 0 <= i < |refs| ==> |cards[i]| == |refs[i]|)
    && (forall i, k :: 0 <= i < |refs| && 0 <= k < |refs[i]| ==> Ok(cards[i][k]) == ResolveRef(refs[i][k], pairs, edges))
  }

  /** The solution cards with their references replaced by entries; the
      first bad reference (row by row) stops the generator. */
  method ResolveCards(refs: seq<seq<string>>, pairs: seq<Pair>, edges: seq<Entry>)
    returns (r: Result<seq<seq<Entry>>, LayoutError>)
    ensures r.Err? ==> r.error.BadReference? && !AllResolve(refs, pairs, edges)
    ensures r.Ok? ==> Resolved(refs, pairs, edges, r.value)
  {
    var cards: seq<seq<Entry>> := [];
    var i := 0;
    while i < |refs|
      invariant 0 <= i <= |refs| && |cards| == i
      invariant forall i' :: 0 <= i' < i ==> |cards[i']| == |refs[i']|
      invariant forall i', k :: 0 <= i' < i && 0 <= k < |refs[i']| ==> Ok(cards[i'][k]) == ResolveRef(refs[i'][k], pairs, edges)
    {
      var card := ResolveCard(refs[i], pairs, edges);
      if card.Err? {
        return Err(card.error);
      }
      cards := cards + [card.value];
      i := i + 1;
    }
    return Ok(cards);
  }

  /** An entry can be formatted on a TikZ piece at `size`, in the
      puzzle or the solution view. */
  predicate Drawable(v: Version, e: Entry, size: int, solution: bool) {
    CanFormat(v, e, size, Tikz, "", 0, solution)
  }

  predicate AllDrawable(v: Version, es: seq<Entry>, size: int, solution: bool) {
    forall k :: 0 <= k < |es| ==> Drawable(v, es[k], size, solution)
  }

  function Max(a: int, b: int): int {
    if a >= b then a else b
  }

  /** `sizes[max(size - 3, 0)]`, the size of the card numbers, exists
      whenever cards are numbered. */
  predicate NumberOk(size: int, numbering: bool) {
    numbering ==> ValidSize(Max(size - 3, 0))
  }

  /** An entry of a piece can be drawn on the solution piece, on the
      puzzle piece and in the Markdown puzzle rows. */
  predicate EntryPrintable(v: Version, e: Entry, puzzleSize: int, solutionSize: int) {
    && Drawable(v, e, solutionSize, true)
    && Drawable(v, e, puzzleSize, false)
    && CanFormat(v, e, 0, Md, "", 0, false)
  }

  /** A resolved card can be drawn: each of its entries, and its number
      at both text sizes. */
  predicate CardPrintable(v: Version, card: seq<Entry>, puzzleSize: int, solutionSize: int, numbering: bool) {
    && (forall k :: 0 <= k < |card| ==> EntryPrintable(v, card[k], puzzleSize, solutionSize))
    && NumberOk(puzzleSize, numbering) && NumberOk(solutionSize, numbering)
  }

  /** The layout's cards can be drawn once their references are resolved:
      every entry a reference resolves to is printable, and when there is a
      card at all its number sizes exist. */
  predicate ShapePrintable(v: Version, refs: seq<seq<string>>, pairs: seq<Pair>, edges: seq<Entry>,
                           puzzleSize: int, solutionSize: int, numbering: bool) {
    && (forall i, k :: 0 <= i < |refs| && 0 <= k < |refs[i]| && ResolveRef(refs[i][k], pairs, edges).Ok? ==>
          EntryPrintable(v, ResolveRef(refs[i][k], pairs, edges).value, puzzleSize, solutionSize))
    && (refs != [] ==> NumberOk(puzzleSize, numbering) && NumberOk(solutionSize, numbering))
  }

  /** The resolved cards can all be drawn exactly when the layout's
      references resolve to printable entries. */
  lemma ResolvedPrintable(v: Version, refs: seq<seq<string>>, pairs: seq<Pair>, edges: seq<Entry>,
                          cards: seq<seq<Entry>>, puzzleSize: int, solutionSize: int, numbering: bool)
    requires Resolved(refs, pairs, edges, cards)
    ensures (forall i :: 0 <= i < |cards| ==> CardPrintable(v, cards[i], puzzleSize, solutionSize, numbering))
        <==> ShapePrintable(v, refs, pairs, edges, puzzleSize, solutionSize, numbering)
  {
    if forall i :: 0 <= i < |cards| ==> CardPrintable(v, cards[i], puzzleSize, solutionSize, numbering) {
      forall i, k | 0 <= i < |refs| && 0 <= k < |refs[i]|
        ensures EntryPrintable(v, ResolveRef(refs[i][k], pairs, edges).value, puzzleSize, solutionSize)
      {
        assert Ok(cards[i][k]) == ResolveRef(refs[i][k], pairs, edges);
        assert CardPrintable(v, cards[i], puzzleSize, solutionSize, numbering);
      }
      if refs != [] {
        assert CardPrintable(v, cards[0], puzzleSize, solutionSize, numbering);
      }
    }
    if ShapePrintable(v, refs, pairs, edges, puzzleSize, solutionSize, numbering) {
      forall i | 0 <= i < |cards|
        ensures CardPrintable(v, cards[i], puzzleSize, solutionSize, numbering)
      {
        forall k | 0 <= k < |cards[i]|
          ensures EntryPrintable(v, cards[i][k], puzzleSize, solutionSize)
        {
          assert Ok(cards[i][k]) == ResolveRef(refs[i][k], pairs, edges);
        }
      }
    }
  }

  /** A resolved layout has no bad reference. */
  lemma ResolvedAll(refs: seq<seq<string>>, pairs: seq<Pair>, edges: seq<Entry>, cards: seq<seq<Entry>>)
    requires Resolved(refs, pairs, edges, cards)
    ensures AllResolve(refs, pairs, edges)
  {
    forall i, k | 0 <= i < |refs| && 0 <= k < |refs[i]|
      ensures ResolveRef(refs[i][k], pairs, edges).Ok?
    {
      assert Ok(cards[i][k]) == ResolveRef(refs[i][k], pairs, edges);
    }
  }

  /** `(angle + 180) % 360 - 180`: the same direction, in `[-180, 180)`. */
  function NormalizeAngle(a: int): (r: int)
    ensures -180 <= r < 180
    ensures (r - a) % 360 == 0
    ensures -180 <= a < 180 ==> r == a
  {
    (a + 180) % 360 - 180
  }

  /** Direction of the card number on the solution piece: the puzzle
      slot's number direction, turned by the difference of the base sides,
      with the piece's rotation undone. */
  function SolutionAngle(shape: Shape, slot: Slot, solutionBase: int, rot: nat): (r: int)
    ensures -180 <= r < 180
    ensures (r - (slot.numberAngle + solutionBase - slot.base - shape.Turn() * rot)) % 360 == 0
  {
    NormalizeAngle(slot.numberAngle + (solutionBase - slot.base) - shape.Turn() * rot)
  }

  /** Solution piece `i`, placed at puzzle position `j`, as drawn in the
      solution: unrotated, numbered `j + offset + 1`. */
  function SolvedPiece(shape: Shape, card: seq<Entry>, j: nat, rot: nat, solutionBase: int, slot: Slot, offset: nat): (r: Piece)
    ensures r.entries == card
    ensures -180 <= r.angle < 180
  {
    Piece(card, CardNum(j + offset + 1), SolutionAngle(shape, slot, solutionBase, rot))
  }

  /** The same piece as drawn in the puzzle: rotated by `rot` steps, its
      number pointing the slot's way. */
  function PuzzlePiece(card: seq<Entry>, j: nat, rot: nat, slot: Slot, offset: nat): (r: Piece)
    requires rot < |card|
    ensures |r.entries| == |card| && Unrotate(r.entries, rot) == card
    ensures multiset(r.entries) == multiset(card)
    ensures r.angle == slot.numberAngle
  {
    RotateRoundTrip(card, rot);
    RotatePreservesEntries(card, rot);
    Piece(Rotate(card, rot), CardNum(j + offset + 1), slot.numberAngle)
  }

  /** The rotated entries are those the generator picks with
      `solcard[(N - rot + k) % N]`. */
  lemma RotationMatchesIndices(card: seq<Entry>, rot: nat)
    requires |card| == 3 || |card| == 4
    requires rot < |card|
    ensures forall k :: 0 <= k < |card| ==> Rotate(card, rot)[k] == card[(|card| - rot + k) % |card|]
  {
  }

  /** `{e1}...{eN}`: the formatted entries of a piece. */
  function Cells(v: Version, es: seq<Entry>, size: int, solution: bool): string
    requires AllDrawable(v, es, size, solution)
  {
    if es == [] then ""
    else Cells(v, es[..|es| - 1], size, solution)
         + "{" + FormatEntry(v, es[|es| - 1], size, Tikz, "", 0, "(BLANK)", solution).text + "}"
  }

  /** The TikZ arguments of a piece: its entries, then its number (when
      cards are numbered) and the number's angle. */
  function PieceCode(v: Version, p: Piece, size: int, numbering: bool, solution: bool): string
    requires AllDrawable(v, p.entries, size, solution) && NumberOk(size, numbering)
  {
    Cells(v, p.entries, size, solution)
    + "{" + (if numbering then SizeName(Max(size - 3, 0)) + " " + p.number else "") + "}"
    + "{" + IntToString(p.angle) + "}"
  }

  /** What the layout and the shuffles guarantee: full pieces, an
      orientation for every piece and slot, a permutation of positions and
      rotations within the piece's symmetry. */
  predicate ShapeInputs(v: Version, shape: Shape, cards: seq<seq<Entry>>, solutionBase: seq<int>, slots: seq<Slot>,
                        order: seq<nat>, rots: seq<nat>, puzzleSize: int, solutionSize: int, numbering: bool) {
    && Placeable(shape, cards, solutionBase, slots, order, rots)
    && (forall i :: 0 <= i < |cards| ==> CardPrintable(v, cards[i], puzzleSize, solutionSize, numbering))
  }

  /** The part of `ShapeInputs` that placing the pieces needs. */
  predicate Placeable<T>(shape: Shape, cards: seq<seq<T>>, solutionBase: seq<int>, slots: seq<Slot>,
                      order: seq<nat>, rots: seq<nat>) {
    && (forall i :: 0 <= i < |cards| ==> |cards[i]| == shape.Sides())
    && |solutionBase| >= |cards| && |slots| >= |cards|
    && IsPermutation(order, |cards|)
    && |rots| == |cards| && (forall i :: 0 <= i < |cards| ==> rots[i] < shape.Sides())
  }

  /** Whether any entry of any card is hidden. */
  predicate AnyHidden(v: Version, cards: seq<seq<Entry>>) {
    cards != [] && (AnyHidden(v, cards[..|cards| - 1]) || CardHidden(v, cards[|cards| - 1]))
  }

  /** `AnyHidden` holds exactly when some entry of some card is hidden. */
  lemma {:induction false} AnyHiddenMeans(v: Version, cards: seq<seq<Entry>>)
    ensures AnyHidden(v, cards) <==> exists i, k :: 0 <= i < |cards| && 0 <= k < |cards[i]| && IsHidden(v, cards[i][k])
  {
    if cards != [] {
      var init := cards[..|cards| - 1];
      AnyHiddenMeans(v, init);
      if exists i, k :: 0 <= i < |cards| && 0 <= k < |cards[i]| && IsHidden(v, cards[i][k]) {
        var i, k :| 0 <= i < |cards| && 0 <= k < |cards[i]| && IsHidden(v, cards[i][k]);
        if i < |init| {
          assert IsHidden(v, init[i][k]);
        }
      }
      if AnyHidden(v, init) {
        var i, k :| 0 <= i < |init| && 0 <= k < |init[i]| && IsHidden(v, init[i][k]);
        assert IsHidden(v, cards[i][k]);
      }
    }
  }

  /** Every entry can be formatted for Markdown, in the puzzle view. */
  predicate MdOk(v: Version, es: seq<Entry>) {
    forall k :: 0 <= k < |es| ==> CanFormat(v, es[k], 0, Md, "", 0, false)
  }

  /** `|` followed by ` text |` for each entry, in the puzzle view. */
  function MdRow(v: Version, es: seq<Entry>): string
    requires MdOk(v, es)
  {
    if es == [] then "|"
    else MdRow(v, es[..|es| - 1]) + " " + FormatEntry(v, es[|es| - 1], 0, Md, "", 0, "(BLANK)", false).text + " |"
  }

  /** The Markdown rows of the puzzle pieces in puzzle order, each ended
      by `ending`. */
  function MdRows(v: Version, ps: seq<Piece>, ending: string): string
    requires forall t :: 0 <= t < |ps| ==> MdOk(v, ps[t].entries)
  {
    if ps == [] then ""
    else MdRows(v, ps[..|ps| - 1], ending) + MdRow(v, ps[|ps| - 1].entries) + ending
  }

  datatype ShapeOutput = ShapeOutput(
    solution: seq<Piece>, puzzle: seq<Piece>,
    solutionCodes: seq<string>, puzzleCodes: seq<string>,
    mdRows: string, mdRowsPadded: string, hidden: bool)

  /** A rotated piece keeps its entries, so it can still be drawn. */
  lemma RotatePrintable(v: Version, card: seq<Entry>, rot: nat, puzzleSize: int, solutionSize: int, numbering: bool)
    requires rot < |card| && CardPrintable(v, card, puzzleSize, solutionSize, numbering)
    ensures CardPrintable(v, Rotate(card, rot), puzzleSize, solutionSize, numbering)
  {
  }

  /** A printable card can be drawn in the view and at the size of either
      piece, and in Markdown. */
  lemma PrintableDrawable(v: Version, card: seq<Entry>, puzzleSize: int, solutionSize: int, numbering: bool)
    requires CardPrintable(v, card, puzzleSize, solutionSize, numbering)
    ensures AllDrawable(v, card, solutionSize, true) && AllDrawable(v, card, puzzleSize, false) && MdOk(v, card)
  {
  }

  /** Lay out the pieces of one shape: solution piece `i` goes to puzzle
      position `order[i]`, rotated `rots[i]` steps anticlockwise; numbers
      start at `offset + 1`. */
  method LayoutShape(v: Version, shape: Shape, cards: seq<seq<Entry>>, solutionBase: seq<int>, slots: seq<Slot>,
                     order: seq<nat>, rots: seq<nat>, offset: nat, puzzleSize: int, solutionSize: int, numbering: bool)
    returns (out: ShapeOutput)
    requires ShapeInputs(v, shape, cards, solutionBase, slots, order, rots, puzzleSize, solutionSize, numbering)
    ensures |out.solution| == |cards| == |out.puzzle| == |out.solutionCodes| == |out.puzzleCodes|
    ensures forall i :: 0 <= i < |cards| ==>
              out.solution[i] == SolvedPiece(shape, cards[i], order[i], rots[i], solutionBase[i], slots[order[i]], offset)
    ensures forall i :: 0 <= i < |cards| ==>
              out.puzzle[order[i]] == PuzzlePiece(cards[i], order[i], rots[i], slots[order[i]], offset)
    ensures |cards| > 0 ==> NumberOk(puzzleSize, numbering) && NumberOk(solutionSize, numbering)
    ensures forall i :: 0 <= i < |cards| ==> AllDrawable(v, out.solution[i].entries, solutionSize, true)
    ensures forall j :: 0 <= j < |cards| ==> AllDrawable(v, out.puzzle[j].entries, puzzleSize, false)
    ensures forall i :: 0 <= i < |cards| ==>
              out.solutionCodes[i] == PieceCode(v, out.solution[i], solutionSize, numbering, true)
    ensures forall j :: 0 <= j < |cards| ==>
              out.puzzleCodes[j] == PieceCode(v, out.puzzle[j], puzzleSize, numbering, false)
    ensures forall j :: 0 <= j < |cards| ==> MdOk(v, out.puzzle[j].entries)
    ensures out.mdRows == MdRows(v, out.puzzle, "\n")
    ensures out.mdRowsPadded == MdRows(v, out.puzzle, " &nbsp; |\n")
    ensures out.hidden <==> AnyHidden(v, cards)
  {
    var sol, placed, hidden := PlacePieces(v, shape, cards, solutionBase, slots, order, rots, offset);
    PlacedPrintable(v, shape, cards, solutionBase, slots, order, rots, offset, puzzleSize, solutionSize, numbering, placed);
    forall i | 0 <= i < |cards|
      ensures AllDrawable(v, sol[i].entries, solutionSize, true)
    {
      PrintableDrawable(v, cards[i], puzzleSize, solutionSize, numbering);
    }
    if |cards| > 0 {
      assert CardPrintable(v, cards[0], puzzleSize, solutionSize, numbering);
    }
    var solCodes := Codes(v, sol, solutionSize, numbering, true);
    var puzCodes := Codes(v, placed, puzzleSize, numbering, false);
    var rows, padded := MarkdownRows(v, placed);
    out := ShapeOutput(sol, placed, solCodes, puzCodes, rows, padded, hidden);
  }

  /** The first `i` solution pieces are in place. */
  predicate SolvedUpTo(sol: seq<Piece>, i: nat, shape: Shape, cards: seq<seq<Entry>>, solutionBase: seq<int>,
                       slots: seq<Slot>, order: seq<nat>, rots: seq<nat>, offset: nat)
    requires Placeable(shape, cards, solutionBase, slots, order, rots) && i <= |cards|
  {
    && |sol| == i
    && forall i' :: 0 <= i' < i ==>
         sol[i'] == SolvedPiece(shape, cards[i'], order[i'], rots[i'], solutionBase[i'], slots[order[i']], offset)
  }

  /** The puzzle positions of the first `i` solution pieces are filled. */
  predicate PlacedUpTo(puz: seq<Piece>, i: nat, shape: Shape, cards: seq<seq<Entry>>, solutionBase: seq<int>,
                       slots: seq<Slot>, order: seq<nat>, rots: seq<nat>, offset: nat)
    requires Placeable(shape, cards, solutionBase, slots, order, rots) && i <= |cards|
  {
    && |puz| == |cards|
    && forall i' :: 0 <= i' < i ==>
         puz[order[i']] == PuzzlePiece(cards[i'], order[i'], rots[i'], slots[order[i']], offset)
  }

  lemma SolvedStep(sol: seq<Piece>, i: nat, shape: Shape, cards: seq<seq<Entry>>, solutionBase: seq<int>,
                   slots: seq<Slot>, order: seq<nat>, rots: seq<nat>, offset: nat)
    requires Placeable(shape, cards, solutionBase, slots, order, rots) && i < |cards|
    requires SolvedUpTo(sol, i, shape, cards, solutionBase, slots, order, rots, offset)
    ensures SolvedUpTo(sol + [SolvedPiece(shape, cards[i], order[i], rots[i], solutionBase[i], slots[order[i]], offset)],
                       i + 1, shape, cards, solutionBase, slots, order, rots, offset)
  {
  }

  lemma PlacedStep(puz: seq<Piece>, i: nat, shape: Shape, cards: seq<seq<Entry>>, solutionBase: seq<int>,
                   slots: seq<Slot>, order: seq<nat>, rots: seq<nat>, offset: nat)
    requires Placeable(shape, cards, solutionBase, slots, order, rots) && i < |cards|
    requires PlacedUpTo(puz, i, shape, cards, solutionBase, slots, order, rots, offset)
    ensures PlacedUpTo(puz[order[i] := PuzzlePiece(cards[i], order[i], rots[i], slots[order[i]], offset)],
                       i + 1, shape, cards, solutionBase, slots, order, rots, offset)
  {
    assert forall i' :: 0 <= i' < i ==> order[i'] != order[i];
  }

  /** The placing loop: solution pieces in solution order, puzzle pieces
      by puzzle position, and whether any entry is hidden. */
  method PlacePieces(v: Version, shape: Shape, cards: seq<seq<Entry>>, solutionBase: seq<int>, slots: seq<Slot>,
                     order: seq<nat>, rots: seq<nat>, offset: nat)
    returns (sol: seq<Piece>, placed: seq<Piece>, hidden: bool)
    requires Placeable(shape, cards, solutionBase, slots, order, rots)
    ensures SolvedUpTo(sol, |cards|, shape, cards, solutionBase, slots, order, rots, offset)
    ensures PlacedUpTo(placed, |cards|, shape, cards, solutionBase, slots, order, rots, offset)
    ensures hidden <==> AnyHidden(v, cards)
  {
    var n := |cards|;
    var puz: seq<Piece> := seq(n, _ => Piece([], "", 0));
    sol := [];
    hidden := false;
    var i := 0;
    while i < n
      invariant 0 <= i <= n
      invariant SolvedUpTo(sol, i, shape, cards, solutionBase, slots, order, rots, offset)
      invariant PlacedUpTo(puz, i, shape, cards, solutionBase, slots, order, rots, offset)
      invariant hidden <==> AnyHidden(v, cards[..i])
    {
      var j := order[i];
      SolvedStep(sol, i, shape, cards, solutionBase, slots, order, rots, offset);
      PlacedStep(puz, i, shape, cards, solutionBase, slots, order, rots, offset);
      sol := sol + [SolvedPiece(shape, cards[i], j, rots[i], solutionBase[i], slots[j], offset)];
      puz := puz[j := PuzzlePiece(cards[i], j, rots[i], slots[j], offset)];
      hidden := hidden || CardHidden(v, cards[i]);
      assert cards[..i + 1][..i] == cards[..i];
      i := i + 1;
    }
    assert cards[..n] == cards;
    placed := puz;
  }

  /** Every puzzle position holds a rotated solution piece, so every
      puzzle piece can be drawn. */
  lemma PlacedPrintable(v: Version, shape: Shape, cards: seq<seq<Entry>>, solutionBase: seq<int>, slots: seq<Slot>,
                        order: seq<nat>, rots: seq<nat>, offset: nat, puzzleSize: int, solutionSize: int, numbering: bool,
                        placed: seq<Piece>)
    requires ShapeInputs(v, shape, cards, solutionBase, slots, order, rots, puzzleSize, solutionSize, numbering)
    requires |placed| == |cards|
    requires forall i :: 0 <= i < |cards| ==>
               placed[order[i]] == PuzzlePiece(cards[i], order[i], rots[i], slots[order[i]], offset)
    ensures forall j :: 0 <= j < |cards| ==> AllDrawable(v, placed[j].entries, puzzleSize, false) && MdOk(v, placed[j].entries)
  {
    PermutationOnto(order, |cards|);
    forall j | 0 <= j < |cards|
      ensures AllDrawable(v, placed[j].entries, puzzleSize, false) && MdOk(v, placed[j].entries)
    {
      assert j in order;
      var i' :| 0 <= i' < |cards| && order[i'] == j;
      RotatePrintable(v, cards[i'], rots[i'], puzzleSize, solutionSize, numbering);
      PrintableDrawable(v, placed[j].entries, puzzleSize, solutionSize, numbering);
    }
  }

  /** The TikZ arguments of each piece, in order. */
  method Codes(v: Version, ps: seq<Piece>, size: int, numbering: bool, solution: bool) returns (codes: seq<string>)
    requires ps != [] ==> NumberOk(size, numbering)
    requires forall t :: 0 <= t < |ps| ==> AllDrawable(v, ps[t].entries, size, solution)
    ensures |codes| == |ps|
    ensures forall t :: 0 <= t < |ps| ==> codes[t] == PieceCode(v, ps[t], size, numbering, solution)
  {
    codes := [];
    var t := 0;
    while t < |ps|
      invariant 0 <= t <= |ps| && |codes| == t
      invariant forall t' :: 0 <= t' < t ==> codes[t'] == PieceCode(v, ps[t'], size, numbering, solution)
    {
      codes := codes + [PieceCode(v, ps[t], size, numbering, solution)];
      t := t + 1;
    }
  }

  /** Whether any entry of one card is hidden. */
  predicate CardHidden(v: Version, card: seq<Entry>) {
    exists k :: 0 <= k < |card| && IsHidden(v, card[k])
  }

  /** One Markdown row, cell by cell. */
  method MarkdownRow(v: Version, es: seq<Entry>) returns (row: string)
    requires MdOk(v, es)
    ensures row == MdRow(v, es)
  {
    row := "|";
    var k := 0;
    while k < |es|
      invariant 0 <= k <= |es|
      invariant row == MdRow(v, es[..k])
    {
      assert es[..k + 1][..k] == es[..k];
      row := row + " " + FormatEntry(v, es[k], 0, Md, "", 0, "(BLANK)", false).text + " |";
      k := k + 1;
    }
    assert es[..k] == es;
  }

  /** The Markdown rows of the puzzle pieces, row by row. */
  method MarkdownRows(v: Version, ps: seq<Piece>) returns (rows: string, padded: string)
    requires forall t :: 0 <= t < |ps| ==> MdOk(v, ps[t].entries)
    ensures rows == MdRows(v, ps, "\n")
    ensures padded == MdRows(v, ps, " &nbsp; |\n")
  {
    rows, padded := "", "";
    var t := 0;
    while t < |ps|
      invariant 0 <= t <= |ps|
      invariant rows == MdRows(v, ps[..t], "\n")
      invariant padded == MdRows(v, ps[..t], " &nbsp; |\n")
    {
      var row := MarkdownRow(v, ps[t].entries);
      rows := rows + row + "\n";
      padded := padded + row + " &nbsp; |\n";
      assert ps[..t + 1][..t] == ps[..t];
      t := t + 1;
    }
    assert ps[..t] == ps;
  }
}
