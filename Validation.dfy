/** Reading the card content of a data file against its layout: how many
    pairs, edges and cards a puzzle type takes, how the edges are fitted
    to the layout, and how pairs are flipped for the puzzle cards. */
module Validation {
  import opened Wrappers
  import opened Yaml

  /** The three kinds of card content a data file can hold. */
  datatype Kind = Pairs | Edges | Cards

  /** Why the run stops while reading the card content. */
  datatype CountError =
    | NeedsOne(kind: Kind)                 // the layout asks for any positive number
    | NeedsExactly(kind: Kind, n: nat)     // the layout asks for exactly `n`
    | Required(kind: Kind)                 // the layout asks for some, the data has none
    | NotAccepted(kind: Kind)              // the data has some, the layout takes none

  /** The content of one kind, checked against the layout's count, where
      a count of 0 means "any positive number". */
  function CheckCount<T>(kind: Kind, expected: Option<nat>, given: Option<seq<T>>): (r: Result<seq<T>, CountError>)
    ensures r.Ok? <==>
              || (expected.None? && given.None?)
              || (expected.Some? && given.Some? && (if expected.value == 0 then |given.value| > 0
                                                    else |given.value| == expected.value))
    ensures r.Ok? ==> r.value == (if given.Some? then given.value else [])
    ensures r.Err? ==> r.error.kind == kind
  {
    match expected
    case Some(n) =>
      if given.None? then Err(Required(kind))
      else if n == 0 && |given.value| == 0 then Err(NeedsOne(kind))
      else if n != 0 && |given.value| != n then Err(NeedsExactly(kind, n))
      else Ok(given.value)
    case None =>
      if given.Some? then Err(NotAccepted(kind)) else Ok([])
  }

  /** The edges given, cut to the layout's count or padded with empty
      edges to it; all blank when the data has none. */
  function FitEdges(expected: Option<nat>, given: Option<seq<Entry>>): (r: Result<seq<Entry>, CountError>)
    ensures r.Err? <==> expected.None? && given.Some?
    ensures r.Err? ==> r.error == NotAccepted(Edges)
    ensures r.Ok? && expected.None? ==> r.value == []
    ensures r.Ok? && expected.Some? ==> |r.value| == expected.value
    ensures r.Ok? && given.Some? ==> forall i :: 0 <= i < |r.value| && i < |given.value| ==> r.value[i] == given.value[i]
    ensures r.Ok? && given.Some? ==> forall i :: |given.value| <= i < |r.value| ==> r.value[i] == Plain("")
    ensures r.Ok? && given.None? ==> forall i :: 0 <= i < |r.value| ==> r.value[i] == Plain("")
  {
    match expected
    case Some(n) =>
      var e := if given.Some? then given.value else [];
      if |e| > n then Ok(e[..n])
      else Ok(e + seq(n - |e|, _ => Plain("")))
    case None =>
      if given.Some? then Err(NotAccepted(Edges)) else Ok([])
  }

  /** The card content of a jigsaw puzzle. */
  datatype JigsawContent = JigsawContent(pairs: seq<Pair>, edges: seq<Entry>)

  /** Reading a jigsaw puzzle's content: pairs are checked first, then
      edges, and a jigsaw takes no cards. */
  function ReadJigsaw(layoutPairs: Option<nat>, layoutEdges: Option<nat>,
                      dataPairs: Option<seq<Pair>>, dataEdges: Option<seq<Entry>>,
                      dataHasCards: bool): (r: Result<JigsawContent, CountError>)
    ensures r.Ok? <==> CheckCount(Pairs, layoutPairs, dataPairs).Ok?
                       && FitEdges(layoutEdges, dataEdges).Ok? && !dataHasCards
    ensures r.Ok? ==> r.value.pairs == CheckCount(Pairs, layoutPairs, dataPairs).value
                      && r.value.edges == FitEdges(layoutEdges, dataEdges).value
    ensures r.Err? && CheckCount(Pairs, layoutPairs, dataPairs).Err? ==> r.error.kind == Pairs
    ensures (r.Err? && dataHasCards && CheckCount(Pairs, layoutPairs, dataPairs).Ok?
             && FitEdges(layoutEdges, dataEdges).Ok?) ==> r.error == NotAccepted(Cards)
  {
    match CheckCount(Pairs, layoutPairs, dataPairs)
    case Err(e) => Err(e)
    case Ok(pairs) =>
      match FitEdges(layoutEdges, dataEdges)
      case Err(e) => Err(e)
      case Ok(edges) =>
        if dataHasCards then Err(NotAccepted(Cards)) else Ok(JigsawContent(pairs, edges))
  }

  /** The card content of a card sort or domino activity. */
  datatype SortContent = SortContent(pairs: seq<Pair>, cards: seq<Entry>)

  /** Reading a card sort's content: pairs are checked first, a card sort
      takes no edges, then cards are checked. */
  function ReadCardsort(layoutPairs: Option<nat>, layoutCards: Option<nat>,
                        dataPairs: Option<seq<Pair>>, dataHasEdges: bool,
                        dataCards: Option<seq<Entry>>): (r: Result<SortContent, CountError>)
    ensures r.Ok? <==> CheckCount(Pairs, layoutPairs, dataPairs).Ok? && !dataHasEdges
                       && CheckCount(Cards, layoutCards, dataCards).Ok?
    ensures r.Ok? ==> r.value.pairs == CheckCount(Pairs, layoutPairs, dataPairs).value
                      && r.value.cards == CheckCount(Cards, layoutCards, dataCards).value
    ensures r.Err? && CheckCount(Pairs, layoutPairs, dataPairs).Err? ==> r.error.kind == Pairs
    ensures (r.Err? && CheckCount(Pairs, layoutPairs, dataPairs).Ok? && dataHasEdges)
            ==> r.error == NotAccepted(Edges)
  {
    match CheckCount(Pairs, layoutPairs, dataPairs)
    case Err(e) => Err(e)
    case Ok(pairs) =>
      if dataHasEdges then Err(NotAccepted(Edges))
      else
        match CheckCount(Cards, layoutCards, dataCards)
        case Err(e) => Err(e)
        case Ok(cards) => Ok(SortContent(pairs, cards))
  }

  /** A pair with its question and answer exchanged. */
  function Swap(p: Pair): (r: Pair)
    ensures r.question == p.answer && r.answer == p.question
  {
    Pair(p.answer, p.question)
  }

  /** The pairs with those picked by `choices` swapped. */
  function Flipped(pairs: seq<Pair>, choices: seq<bool>): (r: seq<Pair>)
    requires |choices| == |pairs|
    ensures |r| == |pairs|
    decreases |pairs|
  {
    if pairs == [] then []
    else
      var n := |pairs| - 1;
      Flipped(pairs[..n], choices[..n]) + [if choices[n] then Swap(pairs[n]) else pairs[n]]
  }

  /** Each flipped pair is its original, or the original swapped, as its
      choice says. */
  lemma {:induction false} FlippedAt(pairs: seq<Pair>, choices: seq<bool>)
    requires |choices| == |pairs|
    ensures forall i :: 0 <= i < |pairs| ==>
              Flipped(pairs, choices)[i] == if choices[i] then Swap(pairs[i]) else pairs[i]
    decreases |pairs|
  {
    if pairs != [] {
      var n := |pairs| - 1;
      FlippedAt(pairs[..n], choices[..n]);
    }
  }

  /** Flipping twice with the same choices gives back the pairs. */
  lemma FlipTwice(pairs: seq<Pair>, choices: seq<bool>)
    requires |choices| == |pairs|
    ensures Flipped(Flipped(pairs, choices), choices) == pairs
  {
    FlippedAt(pairs, choices);
    FlippedAt(Flipped(pairs, choices), choices);
  }

  /** Flipping keeps, for every pair, its question and its answer. */
  lemma FlipKeepsEntries(pairs: seq<Pair>, choices: seq<bool>)
    requires |choices| == |pairs|
    ensures forall i :: 0 <= i < |pairs| ==>
              multiset{Flipped(pairs, choices)[i].question, Flipped(pairs, choices)[i].answer}
              == multiset{pairs[i].question, pairs[i].answer}
  {
    FlippedAt(pairs, choices);
  }

  /** The pairs for the puzzle cards: with `flip` on, each pair is swapped
      when its coin comes up true; with it off, the pairs as they are. */
  method FlipPairs(flip: bool, pairs: seq<Pair>, choices: seq<bool>) returns (flipped: seq<Pair>)
    requires |choices| == |pairs|
    ensures flip ==> flipped == Flipped(pairs, choices)
    ensures !flip ==> flipped == pairs
  {
    if !flip {
      return pairs;
    }
    flipped := [];
    for i := 0 to |pairs|
      invariant flipped == Flipped(pairs[..i], choices[..i])
    {
      assert pairs[..i + 1][..i] == pairs[..i] && choices[..i + 1][..i] == choices[..i];
      if choices[i] {
        flipped := flipped + [Swap(pairs[i])];
      } else {
        flipped := flipped + [pairs[i]];
      }
    }
    assert pairs[..|pairs|] == pairs && choices[..|choices|] == choices;
  }
}
