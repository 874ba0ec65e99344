/** Building the triangular and square pieces of a jigsaw: resolve the
    layout's references, place and rotate the pieces, and store their
    TikZ arguments and Markdown rows in the substitution dictionaries. */
module Jigsaw {
  import opened Wrappers
  import opened Yaml
  import opened Entries
  import opened Formatting
  import opened Permutations
  import opened Pieces
  import opened Subs

  /** The placeholder prefix of the solution pieces of a shape. */
  function SolutionKey(shape: Shape): string {
    if shape.Triangle? then "trisolcard" else "sqsolcard"
  }

  /** The placeholder prefix of the puzzle pieces of a shape. */
  function PuzzleKey(shape: Shape): string {
    if shape.Triangle? then "tripuzcard" else "sqpuzcard"
  }

  /** Triangle rows go to `puzcards3` and, padded to four cells, to
      `puzcards4`; square rows go to `puzcards4`. */
  function MdUpdate(shape: Shape, dsubsmd: Subst, rows: string, padded: string): Subst {
    if shape.Triangle? then Appended(Appended(dsubsmd, "puzcards3", rows), "puzcards4", padded)
    else Appended(dsubsmd, "puzcards4", rows)
  }

  /** The packaged generator numbers the pieces when `numberCards` is
      set; the legacy one always does. */
  function Numbering(v: Version, numberCards: bool): bool {
    v == Legacy || numberCards
  }

  /** What building one shape leaves behind: the resolved cards, the
      placed pieces and the two updated dictionaries. */
  datatype Built = Built(cards: seq<seq<Entry>>, pieces: ShapeOutput, tex: Subst, md: Subst)

  /** The layout fits the shuffles: full pieces, an orientation for every
      piece and slot, a permutation of the positions and rotations within
      the piece's symmetry. */
  predicate LayoutFits(shape: Shape, lay: ShapeLayout, order: seq<nat>, rots: seq<nat>) {
    Placeable(shape, lay.cards, lay.solutionBase, lay.puzzleSlots, order, rots)
  }

  /** Solution piece `i` is card `i` unrotated; puzzle position `order[i]`
      holds it rotated by `rots[i]`. */
  predicate Placed(shape: Shape, lay: ShapeLayout, order: seq<nat>, rots: seq<nat>, offset: nat,
                   cards: seq<seq<Entry>>, sol: seq<Piece>, puz: seq<Piece>) {
    && Placeable(shape, cards, lay.solutionBase, lay.puzzleSlots, order, rots)
    && |sol| == |cards| && |puz| == |cards|
    && (forall i :: 0 <= i < |cards| ==>
          sol[i] == SolvedPiece(shape, cards[i], order[i], rots[i], lay.solutionBase[i], lay.puzzleSlots[order[i]], offset))
    && (forall i :: 0 <= i < |cards| ==>
          puz[order[i]] == PuzzlePiece(cards[i], order[i], rots[i], lay.puzzleSlots[order[i]], offset))
  }

  /** `dsubs` gained `trisolcard<i+1>` / `sqsolcard<i+1>` for every
      solution piece and `tripuzcard<j+1>` / `sqpuzcard<j+1>` for every
      puzzle piece, and nothing else changed. */
  predicate TexFilled(v: Version, shape: Shape, sol: seq<Piece>, puz: seq<Piece>, puzzleSize: int, solutionSize: int,
                      numbering: bool, dsubs: Subst, tex: Subst) {
    var n := |sol|;
    && |puz| == n && (n > 0 ==> NumberOk(puzzleSize, numbering) && NumberOk(solutionSize, numbering))
    && (forall i :: 0 <= i < n ==>
          AllDrawable(v, sol[i].entries, solutionSize, true) && AllDrawable(v, puz[i].entries, puzzleSize, false))
    && (forall i :: 0 <= i < n ==>
          SubKey(SolutionKey(shape), i) in tex &&
          tex[SubKey(SolutionKey(shape), i)] == PieceCode(v, sol[i], solutionSize, numbering, true))
    && (forall j :: 0 <= j < n ==>
          SubKey(PuzzleKey(shape), j) in tex &&
          tex[SubKey(PuzzleKey(shape), j)] == PieceCode(v, puz[j], puzzleSize, numbering, false))
    && (forall k :: k in dsubs && !IsItemKey(SolutionKey(shape), k, n) && !IsItemKey(PuzzleKey(shape), k, n) ==>
          k in tex && tex[k] == dsubs[k])
    && (forall k :: k in tex ==> k in dsubs || IsItemKey(SolutionKey(shape), k, n) || IsItemKey(PuzzleKey(shape), k, n))
  }

  /** The Markdown rows of the puzzle pieces, in puzzle order, were
      appended to `dsubsmd`. */
  predicate MdFilled(v: Version, shape: Shape, puz: seq<Piece>, dsubsmd: Subst, md: Subst) {
    && (forall j :: 0 <= j < |puz| ==> MdOk(v, puz[j].entries))
    && md == MdUpdate(shape, dsubsmd, MdRows(v, puz, "\n"), MdRows(v, puz, " &nbsp; |\n"))
  }

  /** The outcome of building the pieces of one shape. */
  predicate ShapeBuilt(v: Version, shape: Shape, lay: ShapeLayout, pairs: seq<Pair>, edges: seq<Entry>,
                       order: seq<nat>, rots: seq<nat>, offset: nat, puzzleSize: int, solutionSize: int,
                       numbering: bool, dsubs: Subst, dsubsmd: Subst, b: Built) {
    && Resolved(lay.cards, pairs, edges, b.cards)
    && Placed(shape, lay, order, rots, offset, b.cards, b.pieces.solution, b.pieces.puzzle)
    && TexFilled(v, shape, b.pieces.solution, b.pieces.puzzle, puzzleSize, solutionSize, numbering, dsubs, b.tex)
    && MdFilled(v, shape, b.pieces.puzzle, dsubsmd, b.md)
    && (b.pieces.hidden <==> AnyHidden(v, b.cards))
  }

  /** The shared body of `make_triangles` and `make_squares`; piece
      numbers start at `offset + 1`.  Every reference is resolved before
      anything is formatted, so a bad reference stops the generator first;
      after that, an entry the formatter raises on, or a number size that
      does not exist, stops it. */
  method MakeShape(v: Version, shape: Shape, lay: ShapeLayout, pairs: seq<Pair>, edges: seq<Entry>,
                   order: seq<nat>, rots: seq<nat>, offset: nat, puzzleSize: int, solutionSize: int,
                   numbering: bool, dsubs: Subst, dsubsmd: Subst)
    returns (r: Result<Built, LayoutError>)
    requires LayoutFits(shape, lay, order, rots)
    ensures r.Err? ==> r.error.BadReference? || r.error == Unprintable
    ensures (r.Err? && r.error.BadReference?) <==> !AllResolve(lay.cards, pairs, edges)
    ensures r.Ok? <==> AllResolve(lay.cards, pairs, edges) &&
                       ShapePrintable(v, lay.cards, pairs, edges, puzzleSize, solutionSize, numbering)
    ensures r.Ok? ==> ShapeBuilt(v, shape, lay, pairs, edges, order, rots, offset, puzzleSize, solutionSize,
                                 numbering, dsubs, dsubsmd, r.value)
  {
    var resolved := ResolveCards(lay.cards, pairs, edges);
    if resolved.Err? {
      return Err(resolved.error);
    }
    var cards := resolved.value;
    ResolvedAll(lay.cards, pairs, edges, cards);
    ResolvedPrintable(v, lay.cards, pairs, edges, cards, puzzleSize, solutionSize, numbering);
    if !forall i :: 0 <= i < |cards| ==> CardPrintable(v, cards[i], puzzleSize, solutionSize, numbering) {
      return Err(Unprintable);
    }
    var b := Assemble(v, shape, lay, cards, order, rots, offset, puzzleSize, solutionSize, numbering, dsubs, dsubsmd);
    r := Ok(b);
  }

  /** Place the resolved cards and fill in both dictionaries. */
  method Assemble(v: Version, shape: Shape, lay: ShapeLayout, cards: seq<seq<Entry>>,
                  order: seq<nat>, rots: seq<nat>, offset: nat, puzzleSize: int, solutionSize: int,
                  numbering: bool, dsubs: Subst, dsubsmd: Subst)
    returns (b: Built)
    requires ShapeInputs(v, shape, cards, lay.solutionBase, lay.puzzleSlots, order, rots, puzzleSize, solutionSize, numbering)
    ensures b.cards == cards
    ensures Placed(shape, lay, order, rots, offset, cards, b.pieces.solution, b.pieces.puzzle)
    ensures TexFilled(v, shape, b.pieces.solution, b.pieces.puzzle, puzzleSize, solutionSize, numbering, dsubs, b.tex)
    ensures MdFilled(v, shape, b.pieces.puzzle, dsubsmd, b.md)
    ensures b.pieces.hidden <==> AnyHidden(v, cards)
  {
    var out := LayoutShape(v, shape, cards, lay.solutionBase, lay.puzzleSlots, order, rots, offset,
                           puzzleSize, solutionSize, numbering);
    var tex := PublishPieces(v, shape, out.solution, out.puzzle, out.solutionCodes, out.puzzleCodes,
                             puzzleSize, solutionSize, numbering, dsubs);
    var md := MdUpdate(shape, dsubsmd, out.mdRows, out.mdRowsPadded);
    b := Built(cards, out, tex, md);
  }

  /** Store the codes of the solution and puzzle pieces in `dsubs`. */
  method PublishPieces(v: Version, shape: Shape, sol: seq<Piece>, puz: seq<Piece>,
                       solCodes: seq<string>, puzCodes: seq<string>, puzzleSize: int, solutionSize: int,
                       numbering: bool, dsubs: Subst)
    returns (tex: Subst)
    requires |puz| == |sol| == |solCodes| == |puzCodes|
    requires |sol| > 0 ==> NumberOk(puzzleSize, numbering) && NumberOk(solutionSize, numbering)
    requires forall i :: 0 <= i < |sol| ==>
               AllDrawable(v, sol[i].entries, solutionSize, true) && AllDrawable(v, puz[i].entries, puzzleSize, false)
    requires forall i :: 0 <= i < |sol| ==> solCodes[i] == PieceCode(v, sol[i], solutionSize, numbering, true)
    requires forall j :: 0 <= j < |sol| ==> puzCodes[j] == PieceCode(v, puz[j], puzzleSize, numbering, false)
    ensures TexFilled(v, shape, sol, puz, puzzleSize, solutionSize, numbering, dsubs, tex)
  {
    var sk, pk := SolutionKey(shape), PuzzleKey(shape);
    var withSol := Publish(dsubs, sk, solCodes);
    tex := Publish(withSol, pk, puzCodes);
    PublishedMeans(dsubs, sk, solCodes);
    PublishedMeans(withSol, pk, puzCodes);
    forall m: nat, n: nat ensures SubKey(sk, m) != SubKey(pk, n) {
      SubKeysDisjoint(sk, pk, m, n);
    }
  }

  /** `make_triangles`: triangle pieces are numbered from 1. */
  method MakeTriangles(v: Version, lay: ShapeLayout, pairs: seq<Pair>, edges: seq<Entry>,
                       order: seq<nat>, rots: seq<nat>, puzzleSize: int, solutionSize: int,
                       numberCards: bool, dsubs: Subst, dsubsmd: Subst)
    returns (r: Result<Built, LayoutError>)
    requires LayoutFits(Triangle, lay, order, rots)
    ensures r.Err? ==> r.error.BadReference? || r.error == Unprintable
    ensures (r.Err? && r.error.BadReference?) <==> !AllResolve(lay.cards, pairs, edges)
    ensures r.Ok? <==> AllResolve(lay.cards, pairs, edges) &&
                       ShapePrintable(v, lay.cards, pairs, edges, puzzleSize, solutionSize, Numbering(v, numberCards))
    ensures r.Ok? ==> ShapeBuilt(v, Triangle, lay, pairs, edges, order, rots, 0, puzzleSize, solutionSize,
                                 Numbering(v, numberCards), dsubs, dsubsmd, r.value)
  {
    r := MakeShape(v, Triangle, lay, pairs, edges, order, rots, 0, puzzleSize, solutionSize,
                   Numbering(v, numberCards), dsubs, dsubsmd);
  }

  /** `make_squares`: square pieces are numbered after the triangles,
      whose count it reads from the layout even when there are none. */
  method MakeSquares(v: Version, triangleCount: Option<nat>, lay: ShapeLayout, pairs: seq<Pair>, edges: seq<Entry>,
                     order: seq<nat>, rots: seq<nat>, puzzleSize: int, solutionSize: int,
                     numberCards: bool, dsubs: Subst, dsubsmd: Subst)
    returns (r: Result<Built, LayoutError>)
    requires LayoutFits(Square, lay, order, rots)
    ensures triangleCount.None? ==> r == Err(MissingTriangleCards)
    ensures triangleCount.Some? && r.Err? ==> r.error.BadReference? || r.error == Unprintable
    ensures triangleCount.Some? ==> ((r.Err? && r.error.BadReference?) <==> !AllResolve(lay.cards, pairs, edges))
    ensures triangleCount.Some? ==>
              (r.Ok? <==> AllResolve(lay.cards, pairs, edges) &&
                          ShapePrintable(v, lay.cards, pairs, edges, puzzleSize, solutionSize, Numbering(v, numberCards)))
    ensures r.Ok? ==> triangleCount.Some? &&
                      ShapeBuilt(v, Square, lay, pairs, edges, order, rots, triangleCount.value, puzzleSize, solutionSize,
                                 Numbering(v, numberCards), dsubs, dsubsmd, r.value)
  {
    if triangleCount.None? {
      return Err(MissingTriangleCards);
    }
    r := MakeShape(v, Square, lay, pairs, edges, order, rots, triangleCount.value, puzzleSize, solutionSize,
                   Numbering(v, numberCards), dsubs, dsubsmd);
  }

  /** Every puzzle position receives a solution piece: the one whose
      shuffled position it is, rotated. */
  lemma SlotsFilled(shape: Shape, lay: ShapeLayout, order: seq<nat>, rots: seq<nat>, offset: nat,
                    cards: seq<seq<Entry>>, sol: seq<Piece>, puz: seq<Piece>)
    requires Placed(shape, lay, order, rots, offset, cards, sol, puz)
    ensures forall j :: 0 <= j < |puz| ==> j in order
    ensures forall i :: 0 <= i < |sol| ==>
              rots[i] < |sol[i].entries| && puz[order[i]].entries == Rotate(sol[i].entries, rots[i])
  {
    PermutationOnto(order, |cards|);
  }

  /** Puzzle position `j` is numbered `j + offset + 1`, and each solution
      piece carries the number of its puzzle position. */
  lemma PiecesNumbered(shape: Shape, lay: ShapeLayout, order: seq<nat>, rots: seq<nat>, offset: nat,
                       cards: seq<seq<Entry>>, sol: seq<Piece>, puz: seq<Piece>)
    requires Placed(shape, lay, order, rots, offset, cards, sol, puz)
    ensures forall j :: 0 <= j < |puz| ==> puz[j].number == CardNum(j + offset + 1)
    ensures forall i :: 0 <= i < |sol| ==> sol[i].number == puz[order[i]].number
  {
    PermutationOnto(order, |cards|);
    forall j | 0 <= j < |puz|
      ensures puz[j].number == CardNum(j + offset + 1)
    {
      assert j in order;
      var i :| 0 <= i < |order| && order[i] == j;
      assert puz[order[i]] == PuzzlePiece(cards[i], order[i], rots[i], lay.puzzleSlots[order[i]], offset);
    }
  }

  /** No two pieces of a shape carry the same number, in the puzzle or in
      the solution. */
  lemma NumbersDistinct(shape: Shape, lay: ShapeLayout, order: seq<nat>, rots: seq<nat>, offset: nat,
                        cards: seq<seq<Entry>>, sol: seq<Piece>, puz: seq<Piece>)
    requires Placed(shape, lay, order, rots, offset, cards, sol, puz)
    ensures forall j, j' :: 0 <= j < j' < |puz| ==> puz[j].number != puz[j'].number
    ensures forall i, i' :: 0 <= i < i' < |sol| ==> sol[i].number != sol[i'].number
  {
    PiecesNumbered(shape, lay, order, rots, offset, cards, sol, puz);
    forall j, j' | 0 <= j < j' < |puz|
      ensures puz[j].number != puz[j'].number
    {
      CardNumInjective(j + offset + 1, j' + offset + 1);
    }
  }

  /** Turning a puzzle piece back by its rotation gives the solution
      piece; the puzzle piece shows entry `(N - rot + k) % N` of the
      solution piece at side `k`, and no entry is lost or duplicated. */
  lemma PiecesRoundTrip(shape: Shape, lay: ShapeLayout, order: seq<nat>, rots: seq<nat>, offset: nat,
                        cards: seq<seq<Entry>>, sol: seq<Piece>, puz: seq<Piece>)
    requires Placed(shape, lay, order, rots, offset, cards, sol, puz)
    ensures forall i :: 0 <= i < |sol| ==> PieceTurned(shape, sol[i], puz[order[i]], rots[i])
  {
    forall i | 0 <= i < |sol|
      ensures PieceTurned(shape, sol[i], puz[order[i]], rots[i])
    {
      PieceRoundTrip(shape, cards[i], rots[i], sol[i], puz[order[i]]);
    }
  }

  /** The puzzle piece is the solution piece turned `rot` steps: turning
      it back restores the solution piece, side `k` shows entry
      `(N - rot + k) % N` of the solution piece, and no entry is lost or
      duplicated. */
  predicate PieceTurned(shape: Shape, solved: Piece, puzzle: Piece, rot: nat) {
    && |solved.entries| == shape.Sides() == |puzzle.entries| && rot < shape.Sides()
    && Unrotate(puzzle.entries, rot) == solved.entries
    && multiset(puzzle.entries) == multiset(solved.entries)
    && forall k :: 0 <= k < shape.Sides() ==>
         puzzle.entries[k] == solved.entries[(shape.Sides() - rot + k) % shape.Sides()]
  }

  /** `PiecesRoundTrip` for one piece. */
  lemma PieceRoundTrip(shape: Shape, card: seq<Entry>, rot: nat, solved: Piece, puzzle: Piece)
    requires |card| == shape.Sides() && rot < shape.Sides()
    requires solved.entries == card && puzzle.entries == Rotate(card, rot)
    ensures PieceTurned(shape, solved, puzzle, rot)
  {
    RotateRoundTrip(card, rot);
    RotatePreservesEntries(card, rot);
    SidesShown(shape, card, rot);
  }

  /** Side `k` of the turned piece shows entry `(N - rot + k) % N`. */
  lemma SidesShown(shape: Shape, card: seq<Entry>, rot: nat)
    requires |card| == shape.Sides() && rot < shape.Sides()
    ensures forall k :: 0 <= k < shape.Sides() ==>
              Rotate(card, rot)[k] == card[(shape.Sides() - rot + k) % shape.Sides()]
  {
    RotationMatchesIndices(card, rot);
  }

  /** Square numbers follow the triangle numbers, so no triangle and
      square share a number. */
  lemma ShapesNumberedApart(tlay: ShapeLayout, torder: seq<nat>, trots: seq<nat>,
                            tcards: seq<seq<Entry>>, tsol: seq<Piece>, tpuz: seq<Piece>,
                            slay: ShapeLayout, sorder: seq<nat>, srots: seq<nat>,
                            scards: seq<seq<Entry>>, ssol: seq<Piece>, spuz: seq<Piece>)
    requires Placed(Triangle, tlay, torder, trots, 0, tcards, tsol, tpuz)
    requires Placed(Square, slay, sorder, srots, |tlay.cards|, scards, ssol, spuz)
    requires |tcards| == |tlay.cards|
    ensures forall j, j' :: 0 <= j < |tpuz| && 0 <= j' < |spuz| ==> tpuz[j].number != spuz[j'].number
  {
    PiecesNumbered(Triangle, tlay, torder, trots, 0, tcards, tsol, tpuz);
    PiecesNumbered(Square, slay, sorder, srots, |tlay.cards|, scards, ssol, spuz);
    forall j, j' | 0 <= j < |tpuz| && 0 <= j' < |spuz|
      ensures tpuz[j].number != spuz[j'].number
    {
      CardNumInjective(j + 1, j' + |tlay.cards| + 1);
    }
  }

  /** A triangle whose puzzle slot has its base at 0 and its number at
      -30, placed from a solution slot with base 180 and turned once:
      the solution number points at 30. */
  lemma AngleExample()
    ensures SolutionAngle(Triangle, Slot(0, -30), 180, 1) == 30
  {
  }
}
