/** The solution table: every pair, edge and card as a LaTeX table line
    and a Markdown table row, in the solution view.  Special cards print
    nothing; a `newlabel` changes the label of the cards after it. */
module Table {
  import opened Wrappers
  import opened Text
  import opened Yaml
  import opened Images
  import opened Entries
  import opened Formatting
  import opened Specials
  import opened Subs

  /** Why `make_table` stops: a card whose check fails, or an entry the
      formatter raises on. */
  datatype TableError = CheckFailed(error: SpecialError) | Unformattable

  /** The table formats an entry in the solution view twice, in LaTeX at
      `\normalsize` and in Markdown at size 0; both calls return normally. */
  predicate TableOk(v: Version, e: Entry, lbl: string, labelSize: int) {
    && CanFormat(v, e, NormalSize, Table, lbl, labelSize, true)
    && CanFormat(v, e, 0, Md, lbl, 0, true)
  }

  /** Outside TikZ the label's size is never looked up and its text never
      decides whether the formatter raises. */
  lemma TableOkAnyLabel(v: Version, e: Entry, l1: string, s1: int, l2: string, s2: int)
    ensures TableOk(v, e, l1, s1) <==> TableOk(v, e, l2, s2)
  {
  }

  /** An entry formatted for the table, solution view. */
  function Cell(v: Version, e: Entry, size: int, style: Style, lbl: string, labelSize: int): Formatted
    requires CanFormat(v, e, size, style, lbl, labelSize, true)
  {
    FormatEntry(v, e, size, style, lbl, labelSize, "(BLANK)", true)
  }

  /** Both halves of a pair can be formatted. */
  predicate PairOk(v: Version, p: Pair) {
    TableOk(v, p.question, "", 0) && TableOk(v, p.answer, "", 0)
  }

  /** `question&answer\\ \hline`. */
  function PairLine(v: Version, p: Pair): string
    requires PairOk(v, p)
  {
    Cell(v, p.question, NormalSize, Table, "", 0).text + "&" + Cell(v, p.answer, NormalSize, Table, "", 0).text
    + "\\\\ \\hline\n"
  }

  /** `| question | answer |`. */
  function PairRow(v: Version, p: Pair): string
    requires PairOk(v, p)
  {
    "| " + Cell(v, p.question, 0, Md, "", 0).text + " | " + Cell(v, p.answer, 0, Md, "", 0).text + " |\n"
  }

  /** `\strut edge\\ \hline`. */
  function EdgeLine(v: Version, e: Entry): string
    requires TableOk(v, e, "", 0)
  {
    "\\strut " + Cell(v, e, NormalSize, Table, "", 0).text + "\\\\ \\hline\n"
  }

  /** `| edge |`. */
  function EdgeRow(v: Version, e: Entry): string
    requires TableOk(v, e, "", 0)
  {
    "| " + Cell(v, e, 0, Md, "", 0).text + " |\n"
  }

  /** `[label] ` when there is a label. */
  function Bracketed(lbl: string): string {
    if lbl == [] then [] else "[" + lbl + "] "
  }

  /** `[label] card\\ \hline`, the label being the card's own or the one
      in force. */
  function CardLine(v: Version, c: Entry, lbl: string): string
    requires TableOk(v, c, lbl, NormalSize)
  {
    var f := Cell(v, c, NormalSize, Table, lbl, NormalSize);
    Bracketed(f.cardLabel) + f.text + "\\\\ \\hline\n"
  }

  /** `| [label] card |`. */
  function CardRow(v: Version, c: Entry, lbl: string): string
    requires TableOk(v, c, lbl, NormalSize)
  {
    var f := Cell(v, c, 0, Md, lbl, 0);
    "| " + Bracketed(f.cardLabel) + f.text + " |\n"
  }

  /** The first `n` pairs can be formatted. */
  predicate PairsOk(v: Version, pairs: seq<Pair>, n: nat) {
    forall i :: 0 <= i < n && i < |pairs| ==> PairOk(v, pairs[i])
  }

  /** The first `n` edges can be formatted. */
  predicate EdgesOk(v: Version, edges: seq<Entry>, n: nat) {
    forall i :: 0 <= i < n && i < |edges| ==> TableOk(v, edges[i], "", 0)
  }

  /** Every card passes its check. */
  predicate AllChecked(cards: seq<Entry>) {
    forall i :: 0 <= i < |cards| ==> CheckSpecial(cards[i]).Ok?
  }

  lemma CheckedPrefix(cards: seq<Entry>, n: nat)
    requires AllChecked(cards) && n <= |cards|
    ensures AllChecked(cards[..n])
  {
    forall i | 0 <= i < n
      ensures CheckSpecial(cards[..n][i]).Ok?
    {
      assert cards[..n][i] == cards[i];
    }
  }

  /** A card gets through the card loop: it passes its check and, unless
      it is special, the card as checked can be formatted. */
  predicate CardPasses(v: Version, c: Entry) {
    CheckSpecial(c).Ok? && (!CheckSpecial(c).value.special ==> TableOk(v, CheckSpecial(c).value.card, "", NormalSize))
  }

  /** Every card gets through the card loop. */
  predicate AllPass(v: Version, cards: seq<Entry>) {
    forall i :: 0 <= i < |cards| ==> CardPasses(v, cards[i])
  }

  lemma PassedChecked(v: Version, cards: seq<Entry>)
    requires AllPass(v, cards)
    ensures AllChecked(cards)
  {
    forall i | 0 <= i < |cards|
      ensures CheckSpecial(cards[i]).Ok?
    {
      assert CardPasses(v, cards[i]);
    }
  }

  /** A run of cards that get through, and one more, get through. */
  lemma PassedSplit(v: Version, cards: seq<Entry>)
    requires cards != []
    ensures AllPass(v, cards) <==> AllPass(v, cards[..|cards| - 1]) && CardPasses(v, cards[|cards| - 1])
  {
    var front := cards[..|cards| - 1];
    if AllPass(v, front) && CardPasses(v, cards[|cards| - 1]) {
      forall i | 0 <= i < |cards|
        ensures CardPasses(v, cards[i])
      {
        if i < |front| {
          assert front[i] == cards[i];
        }
      }
    }
    if AllPass(v, cards) {
      forall i | 0 <= i < |front|
        ensures CardPasses(v, front[i])
      {
        assert front[i] == cards[i];
      }
    }
  }

  /** Text accumulated by a table loop. */
  datatype Lines = Lines(tex: string, md: string, hidden: bool)

  /** Whether an entry counts as hidden when the table formats it. */
  predicate PairHidden(v: Version, p: Pair) {
    IsHidden(v, p.question) || IsHidden(v, p.answer)
  }

  /** The lines and rows of the first `n` pairs, in order. */
  function PairLines(v: Version, pairs: seq<Pair>, n: nat): Lines
    requires n <= |pairs| && PairsOk(v, pairs, n)
  {
    if n == 0 then Lines("", "", false) else AddPair(v, PairLines(v, pairs, n - 1), pairs[n - 1])
  }

  /** The lines so far, then one pair's line, row and hidden flag. */
  function AddPair(v: Version, prev: Lines, p: Pair): Lines
    requires PairOk(v, p)
  {
    Lines(prev.tex + PairLine(v, p), prev.md + PairRow(v, p), prev.hidden || PairHidden(v, p))
  }

  /** The lines and rows of the first `n` edges, in order. */
  function EdgeLines(v: Version, edges: seq<Entry>, n: nat): Lines
    requires n <= |edges| && EdgesOk(v, edges, n)
  {
    if n == 0 then Lines("", "", false) else AddEdge(v, EdgeLines(v, edges, n - 1), edges[n - 1])
  }

  /** The lines so far, then one edge's line, row and hidden flag. */
  function AddEdge(v: Version, prev: Lines, e: Entry): Lines
    requires TableOk(v, e, "", 0)
  {
    Lines(prev.tex + EdgeLine(v, e), prev.md + EdgeRow(v, e), prev.hidden || IsHidden(v, e))
  }

  /** A card line to print: a card that is not special, as its check
      left it, and the label in force when it was met. */
  datatype Row = Row(card: Entry, lbl: string)

  /** The state of the card loop: the rows so far, the label in force,
      and the cards as the checks left them. */
  datatype CardState = CardState(rows: seq<Row>, running: string, checked: seq<Entry>)

  /** The new label a special card sets, if any. */
  function NewLabel(ch: Checked, current: string): string {
    if ch.special && ch.card.Record? && "newlabel" in ch.card.fields && ch.card.fields["newlabel"].Str?
    then ch.card.fields["newlabel"].s else current
  }

  /** The state after a card that passed its check. */
  function Advance(st: CardState, ch: Checked): CardState {
    if ch.special then st.(running := NewLabel(ch, st.running), checked := st.checked + [ch.card])
    else st.(rows := st.rows + [Row(ch.card, st.running)], checked := st.checked + [ch.card])
  }

  /** One turn of the card loop: a failed check stops it, a special card
      may change the label, any other card is formatted and adds a row. */
  function CardStep(v: Version, st: CardState, c: Entry): (r: Result<CardState, TableError>)
    ensures r.Err? <==> !CardPasses(v, c)
    ensures CheckSpecial(c).Err? ==> r == Err(CheckFailed(CheckSpecial(c).error))
    ensures CheckSpecial(c).Ok? && r.Err? ==> r == Err(Unformattable)
  {
    match CheckSpecial(c)
    case Err(e) => Err(CheckFailed(e))
    case Ok(ch) =>
      TableOkAnyLabel(v, ch.card, st.running, NormalSize, "", NormalSize);
      if !ch.special && !TableOk(v, ch.card, st.running, NormalSize) then Err(Unformattable)
      else Ok(Advance(st, ch))
  }

  /** The card loop over `cards`, starting with label `init`. */
  function CardLines(v: Version, cards: seq<Entry>, init: string): Result<CardState, TableError> {
    if cards == [] then Ok(CardState([], init, []))
    else
      match CardLines(v, cards[..|cards| - 1], init)
      case Err(e) => Err(e)
      case Ok(st) => CardStep(v, st, cards[|cards| - 1])
  }

  /** Every row holds a card that can be formatted with its label. */
  predicate RowsOk(v: Version, rows: seq<Row>) {
    forall i :: 0 <= i < |rows| ==> TableOk(v, rows[i].card, rows[i].lbl, NormalSize)
  }

  /** The LaTeX lines of the rows, in order. */
  function CardTex(v: Version, rows: seq<Row>): string
    requires RowsOk(v, rows)
  {
    if rows == [] then ""
    else CardTex(v, rows[..|rows| - 1]) + CardLine(v, rows[|rows| - 1].card, rows[|rows| - 1].lbl)
  }

  /** The Markdown rows of the rows, in order. */
  function CardMd(v: Version, rows: seq<Row>): string
    requires RowsOk(v, rows)
  {
    if rows == [] then ""
    else CardMd(v, rows[..|rows| - 1]) + CardRow(v, rows[|rows| - 1].card, rows[|rows| - 1].lbl)
  }

  /** Whether some printed card is hidden. */
  predicate RowsHidden(v: Version, rows: seq<Row>) {
    exists i :: 0 <= i < |rows| && IsHidden(v, rows[i].card)
  }

  /** One more row adds its line, its Markdown row and its hidden flag. */
  lemma RowAppended(v: Version, rows: seq<Row>, row: Row)
    requires RowsOk(v, rows) && TableOk(v, row.card, row.lbl, NormalSize)
    ensures RowsOk(v, rows + [row])
    ensures CardTex(v, rows + [row]) == CardTex(v, rows) + CardLine(v, row.card, row.lbl)
    ensures CardMd(v, rows + [row]) == CardMd(v, rows) + CardRow(v, row.card, row.lbl)
    ensures RowsHidden(v, rows + [row]) <==> RowsHidden(v, rows) || IsHidden(v, row.card)
  {
    var all := rows + [row];
    assert all[..|rows|] == rows;
    RowAppendedHidden(v, rows, row);
  }

  /** One more row is hidden-marked when it is, or an earlier row was. */
  lemma RowAppendedHidden(v: Version, rows: seq<Row>, row: Row)
    ensures RowsHidden(v, rows + [row]) <==> RowsHidden(v, rows) || IsHidden(v, row.card)
  {
    var all := rows + [row];
    if RowsHidden(v, rows) {
      var i :| 0 <= i < |rows| && IsHidden(v, rows[i].card);
      assert all[i] == rows[i];
    }
    if RowsHidden(v, all) {
      var i :| 0 <= i < |all| && IsHidden(v, all[i].card);
      if i < |rows| {
        assert all[i] == rows[i];
      }
    }
    assert all[|rows|] == row;
  }

  /** The label in force after `cards`: the `newlabel` of the last special
      card that sets one, else `init`. */
  function RunningLabel(cards: seq<Entry>, init: string): string
    requires AllChecked(cards)
  {
    if cards == [] then init
    else
      CheckedPrefix(cards, |cards| - 1);
      NewLabel(CheckSpecial(cards[|cards| - 1]).value, RunningLabel(cards[..|cards| - 1], init))
  }

  /** The card loop fails exactly when some card does not get through;
      otherwise its label is the running label, it has checked every card,
      and every row it keeps can be formatted. */
  lemma {:induction false} CardLinesMeans(v: Version, cards: seq<Entry>, init: string)
    ensures CardLines(v, cards, init).Ok? <==> AllPass(v, cards)
    ensures CardLines(v, cards, init).Ok? ==>
              && AllChecked(cards)
              && CardLines(v, cards, init).value.running == RunningLabel(cards, init)
              && |CardLines(v, cards, init).value.checked| == |cards|
              && |CardLines(v, cards, init).value.rows| <= |cards|
              && RowsOk(v, CardLines(v, cards, init).value.rows)
  {
    if cards != [] {
      var front := cards[..|cards| - 1];
      var c := cards[|cards| - 1];
      CardLinesMeans(v, front, init);
      PassedSplit(v, cards);
      if CardLines(v, cards, init).Ok? {
        PassedChecked(v, cards);
        var st := CardLines(v, front, init).value;
        var ch := CheckSpecial(c).value;
        if !ch.special {
          TableOkAnyLabel(v, ch.card, st.running, NormalSize, "", NormalSize);
        }
      }
    }
  }

  /** The card loop over one more card is one more step. */
  lemma CardLinesSnoc(v: Version, cards: seq<Entry>, c: Entry, init: string)
    requires CardLines(v, cards, init).Ok?
    ensures CardLines(v, cards + [c], init) == CardStep(v, CardLines(v, cards, init).value, c)
  {
    assert (cards + [c])[..|cards|] == cards;
  }

  /** Appending a card that gets through and is not special appends one
      row: the card as checked, with the label in force after the cards
      before it. */
  lemma CardAppended(v: Version, cards: seq<Entry>, c: Entry, init: string)
    requires AllPass(v, cards) && CardPasses(v, c) && !CheckSpecial(c).value.special
    ensures CardLines(v, cards + [c], init).Ok?
    ensures AllChecked(cards)
    ensures CardLines(v, cards + [c], init).value.rows
            == CardLines(v, cards, init).value.rows + [Row(CheckSpecial(c).value.card, RunningLabel(cards, init))]
  {
    CardLinesMeans(v, cards, init);
    CardLinesSnoc(v, cards, c, init);
  }

  /** Appending a special card adds no row. */
  lemma SpecialAppended(v: Version, cards: seq<Entry>, c: Entry, init: string)
    requires CardLines(v, cards, init).Ok?
    requires CheckSpecial(c).Ok? && CheckSpecial(c).value.special
    ensures CardLines(v, cards + [c], init).Ok?
    ensures CardLines(v, cards + [c], init).value.rows == CardLines(v, cards, init).value.rows
  {
    CardLinesSnoc(v, cards, c, init);
  }

  /** A card with its own `label` shows that label whatever label is in
      force. */
  lemma OwnLabelWins(v: Version, c: Entry, l1: string, l2: string)
    requires TableOk(v, c, l1, NormalSize) && c.Record? && "label" in c.fields
    ensures TableOk(v, c, l2, NormalSize)
    ensures CardLine(v, c, l1) == CardLine(v, c, l2)
    ensures CardRow(v, c, l1) == CardRow(v, c, l2)
  {
    assert LabelText(c, l1) == LabelText(c, l2);
    DefaultLabelOnlyThroughText(v, c, NormalSize, Table, l1, l2, NormalSize, "(BLANK)", true);
    DefaultLabelOnlyThroughText(v, c, 0, Md, l1, l2, 0, "(BLANK)", true);
  }

  /** A pair of plain strings without images is printed as the two
      strings, trailing whitespace removed. */
  lemma PlainPairLine(v: Version, q: string, a: string)
    requires '!' !in q && '!' !in a
    ensures PairOk(v, Pair(Plain(q), Plain(a)))
    ensures PairLine(v, Pair(Plain(q), Plain(a))) == RStrip(q) + "&" + RStrip(a) + "\\\\ \\hline\n"
  {
    assert CanFormat(v, Plain(q), NormalSize, Table, "", 0, true);
    assert CanFormat(v, Plain(q), 0, Md, "", 0, true);
    assert CanFormat(v, Plain(a), NormalSize, Table, "", 0, true);
    assert CanFormat(v, Plain(a), 0, Md, "", 0, true);
    NoBangNoImage(RStrip(q));
    NoBangNoImage(RStrip(a));
    assert Cell(v, Plain(q), NormalSize, Table, "", 0).text == RStrip(q);
    assert Cell(v, Plain(a), NormalSize, Table, "", 0).text == RStrip(a);
  }

  /** The table's hidden flag for the pairs is set exactly when some
      question or answer is hidden. */
  lemma {:induction false} PairLinesHidden(v: Version, pairs: seq<Pair>, n: nat)
    requires n <= |pairs| && PairsOk(v, pairs, n)
    ensures PairLines(v, pairs, n).hidden <==> exists i :: 0 <= i < n && PairHidden(v, pairs[i])
  {
    if n > 0 {
      PairLinesHidden(v, pairs, n - 1);
      var last := PairHidden(v, pairs[n - 1]);
      assert PairLines(v, pairs, n).hidden == (PairLines(v, pairs, n - 1).hidden || last);
      if exists i :: 0 <= i < n && PairHidden(v, pairs[i]) {
        var i :| 0 <= i < n && PairHidden(v, pairs[i]);
        if i < n - 1 {
          assert PairLines(v, pairs, n - 1).hidden;
        }
      }
      if PairLines(v, pairs, n - 1).hidden {
        var i :| 0 <= i < n - 1 && PairHidden(v, pairs[i]);
        assert 0 <= i < n && PairHidden(v, pairs[i]);
      }
    }
  }

  /** One more pair that can be formatted extends the run. */
  lemma PairsGrow(v: Version, pairs: seq<Pair>, i: nat)
    requires i < |pairs| && PairsOk(v, pairs, i) && PairOk(v, pairs[i])
    ensures PairsOk(v, pairs, i + 1)
    ensures PairLines(v, pairs, i + 1) == AddPair(v, PairLines(v, pairs, i), pairs[i])
  {
  }

  /** A pair that cannot be formatted spoils every longer run. */
  lemma PairsStop(v: Version, pairs: seq<Pair>, i: nat)
    requires i < |pairs| && !PairOk(v, pairs[i])
    ensures !PairsOk(v, pairs, |pairs|)
  {
  }

  /** One more edge that can be formatted extends the run. */
  lemma EdgesGrow(v: Version, edges: seq<Entry>, i: nat)
    requires i < |edges| && EdgesOk(v, edges, i) && TableOk(v, edges[i], "", 0)
    ensures EdgesOk(v, edges, i + 1)
    ensures EdgeLines(v, edges, i + 1) == AddEdge(v, EdgeLines(v, edges, i), edges[i])
  {
  }

  /** An edge that cannot be formatted spoils every longer run. */
  lemma EdgesStop(v: Version, edges: seq<Entry>, i: nat)
    requires i < |edges| && !TableOk(v, edges[i], "", 0)
    ensures !EdgesOk(v, edges, |edges|)
  {
  }

  /** The pairs loop: it stops at the first pair the formatter raises on. */
  method TablePairs(v: Version, pairs: seq<Pair>) returns (r: Result<Lines, TableError>)
    ensures r.Err? <==> !PairsOk(v, pairs, |pairs|)
    ensures r.Err? ==> r.error == Unformattable
    ensures r.Ok? ==> r.value == PairLines(v, pairs, |pairs|)
  {
    var acc := Lines("", "", false);
    for i := 0 to |pairs|
      invariant PairsOk(v, pairs, i)
      invariant acc == PairLines(v, pairs, i)
    {
      if !PairOk(v, pairs[i]) {
        PairsStop(v, pairs, i);
        return Err(Unformattable);
      }
      PairsGrow(v, pairs, i);
      acc := AddPair(v, acc, pairs[i]);
    }
    return Ok(acc);
  }

  /** The edges loop: it stops at the first edge the formatter raises on. */
  method TableEdges(v: Version, edges: seq<Entry>) returns (r: Result<Lines, TableError>)
    ensures r.Err? <==> !EdgesOk(v, edges, |edges|)
    ensures r.Err? ==> r.error == Unformattable
    ensures r.Ok? ==> r.value == EdgeLines(v, edges, |edges|)
  {
    var acc := Lines("", "", false);
    for i := 0 to |edges|
      invariant EdgesOk(v, edges, i)
      invariant acc == EdgeLines(v, edges, i)
    {
      if !TableOk(v, edges[i], "", 0) {
        EdgesStop(v, edges, i);
        return Err(Unformattable);
      }
      EdgesGrow(v, edges, i);
      acc := AddEdge(v, acc, edges[i]);
    }
    return Ok(acc);
  }

  /** A card that stops the loop at `i` fails the whole card loop with its
      error. */
  lemma CardFails(v: Version, cards: seq<Entry>, i: nat, init: string, st: CardState)
    requires i < |cards| && CardLines(v, cards[..i], init) == Ok(st) && CardStep(v, st, cards[i]).Err?
    ensures CardLines(v, cards, init) == CardStep(v, st, cards[i])
  {
    assert cards[..i + 1] == cards[..i] + [cards[i]];
    CardLinesSnoc(v, cards[..i], cards[i], init);
    ErrorPersists(v, cards, i + 1, init);
  }

  /** Once the card loop has failed, later cards keep its error. */
  lemma {:induction false} ErrorPersists(v: Version, cards: seq<Entry>, n: nat, init: string)
    requires n <= |cards| && CardLines(v, cards[..n], init).Err?
    ensures CardLines(v, cards, init) == CardLines(v, cards[..n], init)
    decreases |cards|
  {
    if n == |cards| {
      assert cards[..n] == cards;
    } else {
      var front := cards[..|cards| - 1];
      assert front[..n] == cards[..n];
      ErrorPersists(v, front, n, init);
    }
  }

  /** One turn of the card loop over a card that gets through. */
  lemma CardTurn(v: Version, cards: seq<Entry>, i: nat, init: string, st: CardState, ch: Checked)
    requires i < |cards| && CardLines(v, cards[..i], init) == Ok(st)
    requires CheckSpecial(cards[i]) == Ok(ch) && (ch.special || TableOk(v, ch.card, st.running, NormalSize))
    ensures CardLines(v, cards[..i + 1], init) == Ok(Advance(st, ch))
  {
    assert cards[..i + 1] == cards[..i] + [cards[i]];
    CardLinesSnoc(v, cards[..i], cards[i], init);
  }

  /** A card loop that gets through every card gives the tables of its rows. */
  lemma CardsDone(v: Version, cards: seq<Entry>, init: string, st: CardState)
    requires CardLines(v, cards[..|cards|], init) == Ok(st) && RowsOk(v, st.rows)
    ensures CardsOutOf(v, cards, init) == Ok(CardsOut(CardTex(v, st.rows), CardMd(v, st.rows), RowsHidden(v, st.rows), st.checked))
  {
    assert cards[..|cards|] == cards;
  }

  /** A card whose check fails stops the card loop with that failure. */
  lemma CheckStops(v: Version, cards: seq<Entry>, i: nat, init: string, st: CardState)
    requires i < |cards| && CardLines(v, cards[..i], init) == Ok(st) && CheckSpecial(cards[i]).Err?
    ensures CardsOutOf(v, cards, init) == Err(CheckFailed(CheckSpecial(cards[i]).error))
  {
    CardFails(v, cards, i, init, st);
  }

  /** A plain card the formatter raises on stops the card loop. */
  lemma FormatStops(v: Version, cards: seq<Entry>, i: nat, init: string, st: CardState)
    requires i < |cards| && CardLines(v, cards[..i], init) == Ok(st)
    requires CheckSpecial(cards[i]).Ok? && !CheckSpecial(cards[i]).value.special
    requires !TableOk(v, CheckSpecial(cards[i]).value.card, st.running, NormalSize)
    ensures CardsOutOf(v, cards, init) == Err(Unformattable)
  {
    CardFails(v, cards, i, init, st);
  }

  /** What the cards loop leaves behind. */
  datatype CardsOut = CardsOut(tex: string, md: string, hidden: bool, checked: seq<Entry>)

  /** The card tables of the card loop over `cards`, or the error that
      stops it. */
  function CardsOutOf(v: Version, cards: seq<Entry>, init: string): (r: Result<CardsOut, TableError>)
    ensures r.Err? <==> !AllPass(v, cards)
    ensures r.Ok? ==> |r.value.checked| == |cards|
  {
    CardLinesMeans(v, cards, init);
    match CardLines(v, cards, init)
    case Err(e) => Err(e)
    case Ok(st) => Ok(CardsOut(CardTex(v, st.rows), CardMd(v, st.rows), RowsHidden(v, st.rows), st.checked))
  }

  /** A card that got through: a special card may change the label in
      force, any other card adds its line, its row and its hidden flag. */
  method AddCard(v: Version, ch: Checked, st: CardState, tex: string, md: string, hidden: bool)
    returns (next: CardState, tex': string, md': string, hidden': bool)
    requires RowsOk(v, st.rows) && (!ch.special ==> TableOk(v, ch.card, st.running, NormalSize))
    requires tex == CardTex(v, st.rows) && md == CardMd(v, st.rows) && (hidden <==> RowsHidden(v, st.rows))
    ensures next == Advance(st, ch) && RowsOk(v, next.rows)
    ensures tex' == CardTex(v, next.rows) && md' == CardMd(v, next.rows) && (hidden' <==> RowsHidden(v, next.rows))
  {
    next := Advance(st, ch);
    tex', md', hidden' := tex, md, hidden;
    if !ch.special {
      RowAppended(v, st.rows, Row(ch.card, st.running));
      tex' := tex + CardLine(v, ch.card, st.running);
      md' := md + CardRow(v, ch.card, st.running);
      hidden' := hidden || IsHidden(v, ch.card);
    }
  }

  /** The cards loop; a failed check or a card the formatter raises on
      stops the generator. */
  method TableCards(v: Version, cards: seq<Entry>, init: string) returns (r: Result<CardsOut, TableError>)
    ensures r == CardsOutOf(v, cards, init)
  {
    var st := CardState([], init, []);
    var tex, md, hidden := "", "", false;
    var i := 0;
    while i < |cards|
      invariant 0 <= i <= |cards|
      invariant CardLines(v, cards[..i], init) == Ok(st)
      invariant RowsOk(v, st.rows)
      invariant tex == CardTex(v, st.rows) && md == CardMd(v, st.rows)
      invariant hidden <==> RowsHidden(v, st.rows)
    {
      var s := CheckSpecial(cards[i]);
      if s.Err? {
        CheckStops(v, cards, i, init, st);
        return Err(CheckFailed(s.error));
      }
      if !s.value.special && !TableOk(v, s.value.card, st.running, NormalSize) {
        FormatStops(v, cards, i, init, st);
        return Err(Unformattable);
      }
      CardTurn(v, cards, i, init, st, s.value);
      st, tex, md, hidden := AddCard(v, s.value, st, tex, md, hidden);
      i := i + 1;
    }
    CardsDone(v, cards, init, st);
    return Ok(CardsOut(tex, md, hidden, st.checked));
  }

  /** What `make_table` leaves behind. */
  datatype TableOut = TableOut(tex: Subst, md: Subst, hidden: bool, checked: seq<Entry>)

  /** `make_table`: the three LaTeX tables and three Markdown tables
      replace whatever the dictionaries held under those names; the label
      in force starts as the document's `label`.  The pairs are formatted
      first, then the edges, then the cards; the first pair, edge or card
      the formatter raises on, or the first card whose check fails, stops
      the generator. */
  function Tables(v: Version, pairs: seq<Pair>, edges: seq<Entry>, cards: seq<Entry>, dsubs: Subst, dsubsmd: Subst)
    : (r: Result<TableOut, TableError>)
    ensures r.Err? <==> !(PairsOk(v, pairs, |pairs|) && EdgesOk(v, edges, |edges|) && AllPass(v, cards))
    ensures !(PairsOk(v, pairs, |pairs|) && EdgesOk(v, edges, |edges|)) ==> r == Err(Unformattable)
    ensures r.Ok? ==> && r.value.tex.Keys == dsubs.Keys + {"tablepairs", "tableedges", "tablecards"}
                      && r.value.md.Keys == dsubsmd.Keys + {"pairs", "edges", "cards"}
                      && |r.value.checked| == |cards|
                      && r.value.tex["tablepairs"] == PairLines(v, pairs, |pairs|).tex
                      && r.value.md["pairs"] == PairLines(v, pairs, |pairs|).md
                      && r.value.tex["tableedges"] == EdgeLines(v, edges, |edges|).tex
                      && r.value.md["edges"] == EdgeLines(v, edges, |edges|).md
  {
    var init := if "label" in dsubs then dsubs["label"] else "";
    if !PairsOk(v, pairs, |pairs|) || !EdgesOk(v, edges, |edges|) then Err(Unformattable)
    else
      var p, e := PairLines(v, pairs, |pairs|), EdgeLines(v, edges, |edges|);
      match CardsOutOf(v, cards, init)
      case Err(err) => Err(err)
      case Ok(c) =>
        Ok(TableOut(dsubs["tablepairs" := p.tex]["tableedges" := e.tex]["tablecards" := c.tex],
                    dsubsmd["pairs" := p.md]["edges" := e.md]["cards" := c.md],
                    p.hidden || e.hidden || c.hidden, c.checked))
  }

  /** A number where a question should be stops the table: it has no
      `rstrip()`. */
  lemma NumberStopsTable(v: Version, n: int, a: string, dsubs: Subst, dsubsmd: Subst)
    ensures Tables(v, [Pair(Bare(Int(n)), Plain(a))], [], [], dsubs, dsubsmd) == Err(Unformattable)
  {
    var pairs := [Pair(Bare(Int(n)), Plain(a))];
    assert !PairOk(v, pairs[0]);
  }

  /** The table loops one after the other. */
  method MakeTable(v: Version, pairs: seq<Pair>, edges: seq<Entry>, cards: seq<Entry>, dsubs: Subst, dsubsmd: Subst)
    returns (r: Result<TableOut, TableError>)
    ensures r == Tables(v, pairs, edges, cards, dsubs, dsubsmd)
  {
    var init := if "label" in dsubs then dsubs["label"] else "";
    var p := TablePairs(v, pairs);
    if p.Err? {
      return Err(p.error);
    }
    var e := TableEdges(v, edges);
    if e.Err? {
      return Err(e.error);
    }
    var c := TableCards(v, cards, init);
    if c.Err? {
      return Err(c.error);
    }
    var lp, le, out := p.value, e.value, c.value;
    r := Ok(TableOut(dsubs["tablepairs" := lp.tex]["tableedges" := le.tex]["tablecards" := out.tex],
                     dsubsmd["pairs" := lp.md]["edges" := le.md]["cards" := out.md],
                     lp.hidden || le.hidden || out.hidden, out.checked));
  }
}
