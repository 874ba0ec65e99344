# jigsaw-generator, modelled in Dafny

jigsaw-generator turns a YAML file of questions and answers into three
kinds of activity: jigsaw puzzles, card sorts and dominoes. Jigsaw pieces
are triangles and squares whose edges carry matching questions and
answers. Card sorts are cards to be put in order, and dominoes are cards
chained question to answer. Each activity is written out as LaTeX
(TikZ pieces and cards, a table of the content) and as Markdown, in a
puzzle version and a solution version. The output comes from templates,
by substituting `<: name :>` placeholders. There are two versions of the
generator: the packaged module `jigsaw/generate.py` and the older
single-file script `jigsaw-generate.py`. The model covers both, with a
`Version` parameter wherever they differ.

The model covers:

- **Specials.** `check_special`: how special cards (`newpage`,
  `newlabel`, `newlabelsize`) are recognised and repaired.
- **Entries, Formatting, Images, Text.** Formatting one entry
  (`make_entry` and its helpers `make_entry_size`, `make_entry_util`,
  `make_entry_label`), the image rewrite `img2tex`, and `cardnum`.
  Entries covers the packaged formatter, with its puzzle and solution
  views. Formatting covers the older hide/mark/ignore formatter and how
  the two compare.
- **Substitution.** `dosub`, the `<: name :>` template substitution.
- **Table.** `make_table`: the tables of pairs, edges and cards.
- **Pieces, Jigsaw, Permutations, Subs.** Jigsaw piece layout
  (`make_triangles`, `make_squares`): resolving layout references, the
  random permutation and rotation of pieces, numbering, number angles,
  and the TikZ and Markdown substitutions.
- **CardSort, CardSortFindings.** Card-sort sequencing
  (`make_cardsort_cards`): the presift of special cards, the puzzle
  order and its inverse, page places and page breaks, labels in force,
  and the bodies built from the template sections.
- **Dominoes.** Domino sequencing (`make_domino_cards`): the
  question/answer chain, the terminal pair of an open chain, and the
  domino loop.
- **Templates.** Splitting card templates into their sections at the
  `%%% BEGIN …` / `### BEGIN …` marker lines.
- **Validation.** How many pairs, edges and cards a puzzle type takes,
  and flipping pairs.

Randomness (shuffles, rotations, coin flips) is not drawn by the model:
the outcome is passed in as a parameter. Contracts hold for every
outcome the source's random calls can produce. Program stops
(`sys.exit`, an uncaught Python exception) become `Err` results. The
exceptions are the preconditions listed under "## Left out": a grid with
no rows or columns, a malformed layout file, and shuffles that are not
permutations.

## Model

| member | source | states |
|---|---|---|
| Specials.NewpageMeans | jigsaw/generate.py:157-164 | after the repair, a present `newpage` equals True; the key is kept, and no other key changes |
| Specials.Repair | jigsaw/generate.py:155-175 | the repairs fail only on a `newlabelsize` that `int()` rejects; otherwise the special keys have the types later code expects, and no key is added |
| Specials.CheckSpecial | jigsaw/generate.py:155-186 | a string or other scalar is never special; a failure comes only from a `newlabelsize`; a special card has a special key, and its repaired form has no `text` |
| Specials.NewlabelMeans | jigsaw/generate.py:165-171 | a `newlabel` survives exactly when it is a string, keeping its value; no other key changes |
| Specials.LabelSizeMeans | jigsaw/generate.py:172-175 | the `newlabelsize` repair fails exactly when `int()` rejects the value; otherwise the key stays, now an integer, and nothing else changes |
| Specials.RepairMeans | jigsaw/generate.py:155-175 | the repairs fail only on an unconvertible `newlabelsize`; otherwise the special keys have the types later code expects, ordinary keys are untouched, and a key is dropped only for a non-string `newlabel` |
| Specials.RepairIdempotent | jigsaw/generate.py:155-175 | a repaired card needs no further repair |
| Specials.CheckSpecialMeans | jigsaw/generate.py:155-186 | a string is never special; a mapping fails exactly on a bad `newlabelsize`, and otherwise is special iff it has a special key, no `text`, and is not left empty |
| Specials.CheckSpecialStable | jigsaw/generate.py:155-186 | checking a repaired card again gives the same answer, unless the repair removed the card's only special key |
| Specials.CheckSpecialUnstable | jigsaw/generate.py:165-171 | `{newlabel: 5, size: 1}` is special on the first check and not on the second |
| Entries.MakeEntrySize | jigsaw/generate.py:318-344 | the size is default plus relative size, clamped to the ten LaTeX sizes; the fallback when the key is missing or not an integer |
| Entries.MakeEntryUtil | jigsaw/generate.py:346-367 | on a TikZ card: `{hidden}{` when marked, else `{regular}{`, then the size, a space, the right-stripped text with its images rewritten, and `}`; in the table the same text, after `(*) ` when marked; in Markdown the text with its images kept, after `(*) ` when marked, and `blank` for empty unmarked text |
| Entries.TikzMarker | jigsaw/generate.py:356-365 | a TikZ entry starts with `{hidden}{` exactly when it is marked, and with `{regular}{` exactly when it is not |
| Entries.MakeEntryLabel | jigsaw/generate.py:369-392 | the label text is the entry's own `label` or the default, right-stripped; Markdown shows it as it is and the table with images rewritten; TikZ shows nothing without label text, else its size command, a space and the rewritten label |
| Entries.NormalizeHidden | jigsaw/generate.py:276-278 | storing `hidden: True` for a `solutiontext` keeps the entry's hiddenness and touches no other key |
| Entries.MakeEntry | jigsaw/generate.py:188-316 | the hidden flag is set exactly for hidden entries that have text; a plain string shows its text at the default size, unmarked; a mapping without usable text gives an empty cell with its label; a hidden entry without `puzzletext` is blank in the puzzle, label included; otherwise the view's text is shown at its size with the label, marked in the solution when the entry is hidden |
| Entries.PlainShown | jigsaw/generate.py:313-315 | a plain string is shown right-stripped at the default size, unmarked, with images rewritten on a card and `blank` for empty Markdown, in either view |
| Entries.TextShown | jigsaw/generate.py:296-311 | a visible entry with only `text` shows that text at its `size`, unmarked, in the puzzle and in the solution |
| Entries.PuzzleTextShown | jigsaw/generate.py:300-306 | the puzzle shows `puzzletext`, unmarked, at `puzzlesize` (else `size`), with the label, whether or not the entry is hidden |
| Entries.PuzzleBlanksHidden | jigsaw/generate.py:300-312 | a hidden entry without `puzzletext` is blank in the puzzle, label included |
| Entries.SolutionMarksHidden | jigsaw/generate.py:280-299 | a hidden entry is shown marked in the solution: its `solutiontext` at `solutionsize` when it has one, else its `text` at `size` |
| Entries.SameInBothViews | jigsaw/generate.py:287-312 | a visible entry without puzzle- or solution-specific text looks the same in puzzle and solution |
| Entries.SolutionTextShown | jigsaw/generate.py:276-294 | the solution shows `solutiontext` at `solutionsize`; it is marked when `hidden` is absent or true, and unmarked when `hidden` is false |
| Entries.NormalizeHiddenInvisible | jigsaw/generate.py:276-278 | formatting the entry after the in-place `hidden` update gives the same result as before it |
| Entries.NormalizeHiddenKeeps | jigsaw/generate.py:276-278 | the update leaves text, size and label unchanged, and applying it twice equals applying it once |
| Entries.CardNumReadsBack | jigsaw/generate.py:411-416 | a card number reads back as its value: directly, or inside `\underline{}` for 6 and 9 |
| Entries.CardNum | jigsaw/generate.py:411-416 | a card number is plain digits exactly when it is not 6 or 9; 6 and 9 are underlined |
| Entries.CardNumInjective | jigsaw/generate.py:411-416 | different numbers give different card numbers |
| Formatting.LegacyMakeEntry | jigsaw-generate.py:164-248 | the older formatter flags exactly the hidden entries; under `hide` a hidden entry is blank, label included; otherwise `text` is shown at `size` with the label, marked exactly for a hidden entry under `mark`; a plain string is shown at the default size; an entry without `text` gives an empty cell |
| Formatting.LegacyMarkShows | jigsaw-generate.py:227-236 | under `mark` a hidden entry shows its `text` at its `size`, highlighted: `{hidden}{…}` on a card, after `(*) ` in the table and in Markdown |
| Formatting.HiddenKeyAside | jigsaw/generate.py:276-278 | setting `hidden` changes neither the label nor the older formatter's size |
| Formatting.LegacySizeAgrees | jigsaw-generate.py:211-225 | the older inline size computation equals `make_entry_size` for `size` with no fallback size |
| Formatting.LegacyIgnoreShowsPlainly | jigsaw-generate.py:235-237 | in `ignore` mode a hidden entry is drawn exactly like a visible one |
| Formatting.LegacySkipsSolutionText | jigsaw-generate.py:164-248 | the older script prints a card whose `solutiontext` is not a string, since it never reads that key |
| Formatting.PuzzleSkipsHiddenText | jigsaw/generate.py:308-309 | the puzzle view blanks a hidden entry without reading its `text`, so a non-string `text` does not stop it |
| Formatting.VersionsAgree | jigsaw-generate.py:227-247 | an entry without puzzle- or solution-specific keys is formatted identically by both versions |
| Formatting.DefaultLabelOnlyThroughText | jigsaw/generate.py:369-392 | two default labels giving an entry the same label text format it alike, in either version |
| Formatting.PackagedLabelOnlyThroughText | jigsaw/generate.py:369-392 | two default labels giving an entry the same label format it alike in the packaged formatter |
| Formatting.LegacyLabelOnlyThroughText | jigsaw-generate.py:164-248 | two default labels giving an entry the same label format it alike in the older formatter |
| Formatting.FormatEntry | jigsaw/generate.py:188-316 | the chosen version's `make_entry`: a hidden entry without `puzzletext` is blanked in the puzzle view of both versions |
| Images.IndexOf | jigsaw/generate.py:394 | the first occurrence of a character at or after a position, or none |
| Images.MatchAt | jigsaw/generate.py:394 | a match of the image pattern starts where it is tried and ends inside the text, after its start |
| Images.MatchIsReference | jigsaw/generate.py:394 | a match of the image pattern at a position is the written text `![caption](path)`, with no `]` in the caption and no `)` in the path |
| Images.MatchAtReference | jigsaw/generate.py:394 | every written `![caption](path)`, with no `]` in the caption and no `)` in the path, is matched where it starts, caption and path included |
| Images.FirstReference | jigsaw/generate.py:394-398 | a written reference behind text without `!` is the leftmost match, with that text before it and the rest after it |
| Images.FindImage | jigsaw/generate.py:398 | the leftmost match at or after a position; none means no position matches |
| Images.RewriteFirst | jigsaw/generate.py:400-405 | replacing the leftmost reference changes the length by the directive's length less the reference's |
| Images.RewriteFirstCount | jigsaw/generate.py:396-409 | rewriting the leftmost reference removes exactly one `]`, so the loop terminates |
| Images.Directive | jigsaw/generate.py:400-405 | the `\imagecap{path}{caption}` or `\image{path}` directive adds no `!`, so it never starts a new reference |
| Images.FindImageShift | jigsaw/generate.py:394-398 | behind text without `!`, the leftmost reference is the same reference moved along |
| Images.RewriteFirstShift | jigsaw/generate.py:400-405 | rewriting a reference behind other text rewrites only the part after that text |
| Images.RewriteBehind | jigsaw/generate.py:396-409 | text without `!` in front is kept, and only what follows it is rewritten |
| Images.RewriteReference | jigsaw/generate.py:394-409 | `pre ![caption](path) post`, with no `!` in `pre`, caption or path, becomes `pre`, then `\imagecap{path}{caption}` (`\image{path}` for an empty caption), then `post` rewritten |
| Images.DirectiveCount | jigsaw/generate.py:400-405 | a directive holds only the `]`s of its path when the caption has none |
| Images.ReferenceCount | jigsaw/generate.py:394 | a reference holds exactly one `]` outside its caption and path |
| Images.Img2Tex | jigsaw/generate.py:396-409 | the rewrite loop computes `ImageRewrite` and ends with no image reference left |
| Images.ImageRewrite | jigsaw/generate.py:396-409 | the rewritten text contains no image reference |
| Images.RewriteIdempotent | jigsaw/generate.py:396-409 | rewriting twice is the same as rewriting once |
| Images.NoBangNoImage | jigsaw/generate.py:394 | text without `!` is left unchanged |
| Text.RStrip | jigsaw/generate.py:353 | `rstrip()` gives the longest prefix not ending in whitespace; only whitespace is removed |
| Text.LStrip | jigsaw/generate.py:331 | `lstrip()` gives the longest suffix not starting with whitespace; only whitespace is removed |
| Text.NatToString | jigsaw/generate.py:416 | `str(n)` is non-empty digits without a leading zero |
| Text.NatToStringValue | jigsaw/generate.py:416 | the digits of `str(n)` denote `n` |
| Text.NatToStringInjective | jigsaw/generate.py:416 | distinct numbers print differently |
| Text.ParseInt | jigsaw/generate.py:331 | `int(s)` succeeds exactly on an optional sign and ASCII digits, single underscores allowed between digits, inside surrounding whitespace; the value is that of the digits, negated after `-` |
| Text.UnderscoreIgnored | jigsaw/generate.py:331 | `int("1_0")` is 10 |
| Text.UnderscoreMisplaced | jigsaw/generate.py:331 | a doubled, leading or trailing underscore is refused |
| Text.ParseIntToString | jigsaw/generate.py:331 | `int(str(i)) == i` for every integer |
| Yaml.AsInt | jigsaw/generate.py:331 | `int(v)` keeps an integer, gives 1 or 0 for a boolean, truncates a float toward zero, reads a string as `int(s)`, and fails on None |
| Substitution.SkipSpace | jigsaw/generate.py:108 | `\s*` runs to the first non-whitespace character |
| Substitution.NameEnd | jigsaw/generate.py:108 | the lazy `\S*?` name stops at the first point followed by optional whitespace and `:>`, and contains no whitespace |
| Substitution.Match | jigsaw/generate.py:108 | a placeholder match spans at least `<::>` and lies within the text |
| Substitution.NoPlaceholderUnchanged | jigsaw/generate.py:100-108 | text without `<:` is returned unchanged |
| Substitution.PlainPrefixCopied | jigsaw/generate.py:100-108 | text without `<` is copied unchanged ahead of whatever follows |
| Substitution.MatchWritten | jigsaw/generate.py:108 | a written `<: name :>` is recognised with its name and its full extent |
| Substitution.PlaceholderReplaced | jigsaw/generate.py:100-108 | `<: name :>` becomes `str(subs[name])`, or nothing for an unknown name, and the rest of the text is substituted in turn |
| Table.CardStep | jigsaw/generate.py:446-458 | one turn of the card loop fails exactly when the card's check fails |
| Table.CardLinesMeans | jigsaw/generate.py:445-458 | the card loop fails exactly when some check fails; otherwise the label in force is the last `newlabel`, and the rows hold well-typed cards |
| Table.CardAppended | jigsaw/generate.py:452-458 | a non-special card adds one row: the checked card with the label in force |
| Table.SpecialAppended | jigsaw/generate.py:447-451 | a special card adds no row |
| Table.OwnLabelWins | jigsaw/generate.py:369-375 | a card with its own `label` shows it whatever label is in force |
| Table.TableOkAnyLabel | jigsaw/generate.py:369-392 | outside TikZ the label in force never decides whether formatting raises |
| Table.PlainPairLine | jigsaw/generate.py:428-430 | a plain pair without images prints as `question&answer\\ \hline`, right-stripped |
| Table.PairLinesHidden | jigsaw/generate.py:427-434 | the hidden flag of the pairs table is set exactly when some question or answer is hidden |
| Table.NumberStopsTable | jigsaw/generate.py:427-434 | a number where a question should be stops the table, since it has no `rstrip()` |
| Table.CardFails | jigsaw/generate.py:447 | a failed check at any card fails the whole table |
| Table.ErrorPersists | jigsaw/generate.py:446-458 | once the card loop has failed, later cards keep its error |
| Table.RowAppended | jigsaw/generate.py:454-458 | one more row adds exactly its LaTeX line and its Markdown row |
| Table.TablePairs | jigsaw/generate.py:427-434 | the pairs loop builds the pair lines and rows in order |
| Table.TableEdges | jigsaw/generate.py:436-441 | the edges loop builds the edge lines and rows in order |
| Table.AddCard | jigsaw/generate.py:447-458 | one turn keeps the tables equal to the rows built so far |
| Table.CardsOutOf | jigsaw/generate.py:445-458 | the card tables exist exactly when every card passes its check |
| Table.TableCards | jigsaw/generate.py:445-458 | the cards loop yields the card tables or the first check error |
| Table.Tables | jigsaw/generate.py:418-458 | `make_table` fails exactly when a pair, edge or card cannot be formatted or a card's check fails, a pair or edge failure coming first; otherwise it sets exactly the three table keys in each dictionary, holding the pair and edge lines in order |
| Table.MakeTable | jigsaw/generate.py:418-458 | the three loops compute `Tables` |
| Pieces.PyIndex | jigsaw/generate.py:482 | Python's index `xs[k]`, negative indices included, lands in range |
| Pieces.Pick | jigsaw/generate.py:483-488 | a non-negative Python index picks the question or answer of that pair, or that edge, and nothing once past the end |
| Pieces.ResolveRef | jigsaw/generate.py:481-492 | `Qn`/`An`/`En` give question, answer or edge `n` (1-based); an out-of-range or malformed reference stops the run |
| Pieces.ResolveCard | jigsaw/generate.py:480-493 | one solution card's references become entries, or the first bad one is reported |
| Pieces.ResolveCards | jigsaw/generate.py:478-493 | every reference resolves, or the run stops on a bad reference |
| Pieces.ResolvedAll | jigsaw/generate.py:478-493 | a resolved layout has no bad reference |
| Pieces.ResolvedPrintable | jigsaw/generate.py:478-538 | the resolved cards can all be drawn exactly when every reference resolves to an entry that can be drawn |
| Pieces.NormalizeAngle | jigsaw/generate.py:523 | `(a + 180) % 360 - 180` points the same way and lies in [-180, 180) |
| Pieces.SolutionAngle | jigsaw/generate.py:520-523 | the solution number angle is the puzzle angle plus the base difference, minus the rotation, normalised |
| Pieces.RotationMatchesIndices | jigsaw/generate.py:511-513 | the rotated piece is exactly `solcard[(N - rot + k) % N]` for each side `k` |
| Pieces.SolvedPiece | jigsaw/generate.py:508-523 | a solution piece carries its card unrotated, and its number angle lies in [-180, 180) |
| Pieces.PuzzlePiece | jigsaw/generate.py:508-514 | a puzzle piece carries its card rotated: turning it back gives the card, no entry is lost or duplicated, and its number points the slot's way |
| Pieces.AnyHiddenMeans | jigsaw/generate.py:280-283 | the hidden flag is set exactly when some entry of some card is hidden |
| Pieces.LayoutShape | jigsaw/generate.py:508-553 | solution piece `i` is card `i` unrotated; puzzle position `order[i]` holds it rotated `rots[i]`; codes and Markdown rows are built from them |
| Pieces.PlacePieces | jigsaw/generate.py:508-523 | the placing loop fills every solution piece and puzzle position, and records whether any entry is hidden |
| Pieces.Codes | jigsaw/generate.py:525-538 | each piece's TikZ arguments: its entries, its number when numbered, and its number angle |
| Pieces.MarkdownRow | jigsaw/generate.py:549-551 | one Markdown row, ` text |` per entry |
| Pieces.MarkdownRows | jigsaw/generate.py:548-553 | the rows of the puzzle pieces in puzzle order, plain and padded to four cells |
| Jigsaw.MakeShape | jigsaw/generate.py:460-553 | building a shape fails on a bad reference exactly when some reference does not resolve; otherwise it fails as unprintable exactly when a referenced entry or a number size cannot be drawn; else every piece is placed, numbered and published |
| Jigsaw.Assemble | jigsaw/generate.py:501-553 | the resolved cards are placed as shuffled and turned, both dictionaries are filled from the pieces, and the hidden flag is set exactly when some entry is hidden |
| Jigsaw.MakeTriangles | jigsaw/generate.py:460-553 | triangles are numbered from 1; the run fails exactly on a bad reference or, after that, on a referenced entry that cannot be drawn |
| Jigsaw.MakeSquares | jigsaw/generate.py:564-662 | squares are numbered after the triangles; a layout without `triangleSolutionCards` stops the run; otherwise it fails exactly as `make_triangles` does |
| Jigsaw.PublishPieces | jigsaw/generate.py:525-538 | every solution and puzzle piece gets its own key, and no other key changes |
| Jigsaw.SlotsFilled | jigsaw/generate.py:501-514 | every puzzle position receives the solution piece shuffled to it, rotated |
| Jigsaw.PiecesNumbered | jigsaw/generate.py:514 | puzzle position `j` is numbered `j + offset + 1`, and its solution piece carries the same number |
| Jigsaw.NumbersDistinct | jigsaw/generate.py:501-523 | no two pieces of a shape share a number, in puzzle or solution |
| Jigsaw.PiecesRoundTrip | jigsaw/generate.py:508-514 | turning a puzzle piece back gives its solution piece; no entry is lost or duplicated |
| Jigsaw.PieceRoundTrip | jigsaw/generate.py:615-623 | one piece: side `k` shows entry `(N - rot + k) % N`, and undoing the turn restores it |
| Jigsaw.SidesShown | jigsaw/generate.py:511-513 | side `k` of a turned piece shows entry `(N - rot + k) % N` |
| Jigsaw.ShapesNumberedApart | jigsaw/generate.py:622 | no triangle and square share a number |
| Jigsaw.AngleExample | jigsaw/generate.py:520-523 | a concrete triangle's solution number angle is 30 |
| Permutations.Identity | jigsaw/generate.py:501 | `list(range(n))` is a permutation |
| Permutations.PermutationOnto | jigsaw/generate.py:501-502 | a shuffled order reaches every position |
| Permutations.InverseIsInverse | jigsaw/generate.py:745 | `invcardorder` is defined on every position, undoes `cardorder` both ways, and is a permutation |
| Permutations.RotateRoundTrip | jigsaw/generate.py:511-513 | rotating and unrotating give back the piece, in either order |
| Permutations.RotatePreservesEntries | jigsaw/generate.py:511-513 | a rotation is a permutation of the piece's entries |
| Subs.SubKeyInjective | jigsaw/generate.py:525 | different items have different placeholders |
| Subs.SubKeysDisjoint | jigsaw/generate.py:525-532 | `trisolcard…` and `tripuzcard…` keys never collide |
| Subs.PublishedMeans | jigsaw/generate.py:525-538 | publishing stores every code under its own key, and adds or changes nothing else |
| Subs.Publish | jigsaw/generate.py:525-538 | the publishing loop computes the published dictionary |
| Subs.Appended | jigsaw/generate.py:543-553 | `setdefault` then `+=` appends to the key's value, or to `''`, and keeps other keys |
| Templates.FindMarker | jigsaw/generate.py:1771-1775 | the first line at or after a position that starts with a marker |
| Templates.NextLineStart | jigsaw/generate.py:1771 | `.*?^` finds the next line start |
| Templates.LineEnd | jigsaw/generate.py:1804 | `.*?$` finds the next line end |
| Templates.SectionsOfJoined | jigsaw/generate.py:1771-1811 | sections written between marker lines split back into the same sections |
| Templates.SplitTexJoined | jigsaw/generate.py:1771-1784 | a TeX card template written from its five sections splits back into them |
| Templates.SplitMdJoined | jigsaw/generate.py:1804-1814 | a Markdown card template written from its three sections splits back into them |
| Templates.LegacySplitMd | jigsaw-generate.py:1452-1462 | the older split agrees with the packaged one except that the end-of-document section is always empty |
| Templates.LegacyLosesEnd | jigsaw-generate.py:1452-1459 | a template with a non-empty end section loses it in the older split |
| Validation.CheckCount | jigsaw/generate.py:1471-1489 | the content is accepted iff both layout and data have it or neither does, and the count is positive (count 0) or exact; errors name the kind |
| Validation.FitEdges | jigsaw/generate.py:1491-1510 | edges are cut or padded with blanks to the layout's count; edges in data the layout does not take stop the run |
| Validation.ReadJigsaw | jigsaw/generate.py:1471-1515 | a jigsaw's pairs are checked first, then edges, and any cards stop the run |
| Validation.ReadCardsort | jigsaw/generate.py:1853-1896 | a card sort's pairs are checked first, then edges are refused, then cards are checked |
| Validation.FlippedAt | jigsaw/generate.py:1524-1532 | each flipped pair is the original or its swap, as its coin says |
| Validation.Flipped | jigsaw/generate.py:1524-1532 | the flipped list has one pair for each pair |
| Validation.FlipTwice | jigsaw/generate.py:1524-1532 | flipping twice with the same coins restores the pairs |
| Validation.FlipKeepsEntries | jigsaw/generate.py:1524-1532 | flipping keeps each pair's question and answer |
| Validation.FlipPairs | jigsaw/generate.py:1524-1532 | with `flip` the pairs swapped by their coins, else the pairs unchanged |
| CardSort.Grid | jigsaw/generate.py:817 | a page holds `rows * columns` cards, at least one |
| CardSort.TitleSize | jigsaw/generate.py:702 | the default title size is `max(labelSize - 1, 0)` |
| CardSort.CardTitle | jigsaw/generate.py:696-706 | no title gives empty titles; otherwise the title, after its size command in TeX, failing on an invalid size |
| CardSort.Checks | jigsaw/generate.py:733-738 | the presift succeeds iff every card's check does, giving each card's checked form |
| CardSort.RealIndices | jigsaw/generate.py:733-738 | `realcards` lists exactly the non-special cards, in increasing order |
| CardSort.RealCountPrefix | jigsaw/generate.py:740 | a prefix of the cards has no more real cards than all of them |
| CardSort.Presift | jigsaw/generate.py:733-738 | the presift loop returns the checked cards and `realcards`, or the first check error |
| CardSort.NumbersAgree | jigsaw/generate.py:778-781 | puzzle position `i` shows solution card `order[i]`, and both carry number `i + 1` |
| CardSort.EachCardOnce | jigsaw/generate.py:741-745 | every real card is shown at exactly one puzzle position |
| CardSort.Rule | jigsaw/generate.py:763-770 | the packaged generator disregards `newpage` exactly when shuffling; the older one crashes exactly when the layout lacks `shuffleCards` |
| CardSort.NextPlace | jigsaw/generate.py:815-818 | the next place is one on, or the first place once the page is full |
| CardSort.LayoutStep | jigsaw/generate.py:756-818 | a real card takes the current place with the label in force; a special card takes none, and crashes exactly on a `newpage` the rule cannot decide |
| CardSort.Layout | jigsaw/generate.py:756-818 | the loop places at most the real cards, all of them unless it crashed, and the page counter stays below `rows * columns` |
| CardSort.LayoutPrefix | jigsaw/generate.py:756-818 | the layout of a prefix is how the whole layout stood after that prefix |
| CardSort.LayoutNextPlace | jigsaw/generate.py:763-818 | the next card goes to the first place of a page or to the place after the last card's |
| CardSort.LayoutGrid | jigsaw/generate.py:774-818 | every real card has a place on the page, and each follows the previous one or starts a page |
| CardSort.LayoutDisregarding | jigsaw/generate.py:774-818 | when `newpage` is disregarded, card `i` takes place `i % (rows * columns)` |
| CardSort.PageCellsDistinct | jigsaw/generate.py:774-775 | two cards with no new page begun between them sit in different cells |
| CardSort.CellOnPage | jigsaw/generate.py:774-775 | `(row, col)` lies within the grid, and the place can be read back from it |
| CardSort.CardNumberInjective | jigsaw/generate.py:778-779 | numbered cards carry different numbers |
| CardSort.FirstFalse | jigsaw/generate.py:797-813 | the first failing position, with all earlier ones passing |
| CardSort.Fits | jigsaw/generate.py:797-813 | which laid-out cards the formatter accepts |
| CardSort.Arranged | jigsaw/generate.py:756-818 | the loop succeeds iff it neither crashes nor meets an unformattable card; then it places every real card |
| CardSort.Dealt | jigsaw/generate.py:733-745 | the deal exists iff every check passes; unshuffled, the puzzle order is the identity |
| CardSort.ArrangedOk | jigsaw/generate.py:756-818 | a run that neither crashes nor meets an unformattable card places every real card |
| CardSort.CrashStops | jigsaw-generate.py:645-648 | a `newpage` card that crashes the loop stops the whole run |
| CardSort.UnprintableStops | jigsaw/generate.py:797-813 | an unformattable card stops the whole run at its position |
| CardSort.ChecksStop | jigsaw/generate.py:733-738 | once a prefix fails its check, all the cards fail with the same error |
| CardSort.ItemsSnoc | jigsaw/generate.py:788-813 | one more real card adds its page break and its item to each body |
| CardSort.ItemSubs | jigsaw/generate.py:774-785 | one item's substitutions are exactly its row, column, number, text and label |
| CardSort.PageBreak | jigsaw/generate.py:788-791 | a page break comes only at the first place of a page: the page start, after the previous page's end unless it is the first card |
| CardSort.Items | jigsaw/generate.py:788-813 | a body begins with its start section, and with no cards laid out it is just that |
| CardSort.Rendered | jigsaw/generate.py:747-827 | the solution bodies exist exactly when a solution is produced |
| CardSort.Filled | jigsaw/generate.py:703-833 | the dictionaries gain the title, the grid and the bodies, and nothing else |
| CardSort.AddItem | jigsaw/generate.py:788-813 | one real card keeps the bodies equal to those of the cards laid out so far |
| CardSort.Visit | jigsaw/generate.py:756-818 | one turn either stops with the run's own error, or moves layout and bodies on by that card |
| CardSort.VisitReal | jigsaw/generate.py:774-818 | a real card either stops the run as unformattable, or adds its item to each body |
| CardSort.CardLoop | jigsaw/generate.py:756-818 | the loop fails exactly as `Arranged` does; otherwise the bodies are those of the full layout |
| CardSort.CardBodies | jigsaw/generate.py:747-827 | the loop followed by the end sections |
| CardSort.DealCards | jigsaw/generate.py:733-745 | the presift and puzzle order compute `Dealt` |
| CardSort.CardsortCards | jigsaw/generate.py:674-833 | a bad title size or a failed check stops the run; a run that gets through sets exactly the title, grid and body keys |
| CardSort.MakeCardsortCards | jigsaw/generate.py:674-833 | the whole procedure computes `CardsortCards` |
| CardSortFindings.SolutionBreakAsWritten | jigsaw/generate.py:792-795 | the solution breaks pages on every `rows * columns`-th card, whatever its place |
| CardSortFindings.SolutionBreakMissed | jigsaw/generate.py:788-795 | after a `newpage` card, the puzzle starts a new page but the solution as written does not |
| CardSortFindings.SolutionBreakAgrees | jigsaw/generate.py:788-795 | without honoured `newpage` cards, the written solution break equals the place-based one |
| CardSortFindings.RecheckCount | jigsaw/generate.py:756-758 | the number of cards the loop treats as real after checking each one again |
| CardSortFindings.RecheckOverruns | jigsaw/generate.py:756-758 | for `{newlabel: 5, size: 1}` the loop counts one real card where the presift counted none |
| CardSortFindings.RecheckAgrees | jigsaw/generate.py:733-758 | when every check is stable, the loop and the presift count alike |
| CardSortFindings.LegacyNewpageStops | jigsaw-generate.py:645-652 | the older script stops at a `newpage` card when the layout lacks `shuffleCards` |
| Dominoes.Before | jigsaw/generate.py:965-967 | `(k - 1 + n) % n` is the previous domino, wrapping to the last |
| Dominoes.ChainLinks | jigsaw/generate.py:964-991 | the right face of domino `k` holds question `k`, and the left face of the next domino holds its answer |
| Dominoes.OpenChainEnds | jigsaw/generate.py:871-877 | without looping, the first domino starts with `start` and the last ends with `finish` |
| Dominoes.Shown | jigsaw/generate.py:964-966 | the domino at a puzzle position is `cardorder[i]`, and at a solution position it is `i` |
| Dominoes.DominoNumbersAgree | jigsaw/generate.py:946-949 | puzzle position `i` shows domino `order[i]`, both numbered `i + 1`; every domino appears once |
| Dominoes.DominoFits | jigsaw/generate.py:964-992 | which positions the formatter accepts |
| Dominoes.DominoSubs | jigsaw/generate.py:944-990 | one domino's substitutions are exactly its row, column, number and both faces with their labels |
| Dominoes.DominoItems | jigsaw/generate.py:955-992 | a body begins with its start section, and with no dominoes it is just that |
| Dominoes.DominoRun | jigsaw/generate.py:917-1007 | the run succeeds iff every position prints, with solution bodies; else it reports the first unprintable position |
| Dominoes.DominoCardsKeys | jigsaw/generate.py:853-1007 | a run that gets through sets the title, grid and both bodies in each dictionary |
| Dominoes.DominoCards | jigsaw/generate.py:835-1011 | a bad title size stops the run first |
| Dominoes.PairList.constructor | jigsaw/generate.py:835 | the caller's list of pairs |
| Dominoes.PairList.Append | jigsaw/generate.py:876-877 | `append` adds the pair at the end |
| Dominoes.PairList.Pop | jigsaw/generate.py:1009-1011 | `pop` removes and returns the last pair |
| Dominoes.AddDomino | jigsaw/generate.py:942-992 | one position keeps the bodies equal to those of the positions so far |
| Dominoes.DominoLoop | jigsaw/generate.py:924-994 | the loop stops at the first unprintable position, or builds the bodies of every position |
| Dominoes.DominoBodiesOf | jigsaw/generate.py:917-1002 | the loop and end sections compute `DominoRun` |
| Dominoes.MakeDominoCards | jigsaw/generate.py:835-1011 | computes `DominoCards`; the caller's list is restored unless the run stopped inside the loop, which leaves the terminal pair appended |

## Left out

- Reading files, `getopt` lookups and command-line parsing are not modelled. `opentemplate`, `runlatex`, `filtermd`, `main` and `generate` are out too. Options reach the model as parameters (`SortOptions`, `Ends`, sizes, numbering).
- YAML loading is out: data arrives as `Scalar`, `Entry` and `Pair` values.
- Diagnostics printed to standard error are not modelled. The behaviour that follows each one is.
- Random draws are inputs: the shuffled orders, piece rotations and flip coins. The shuffle of pairs or edges is not modelled.
- Regular expressions are replaced by hand-written scanners with the same matches (image pattern, placeholder pattern, template markers).
- Images.Img2Tex: models the intended rewrite. Python's `re.sub` reads `\i` in the replacement `\imagecap…`/`\image…` as a bad escape, and backslashes in a path or caption as escapes; that is not modelled.
- Pieces.ResolveCard: an unrecognised reference letter stops the run. The source calls the undefined `printf`, which raises `NameError`, so the outcome is the same.
- The `cardseph` and `cardsepv` substitutions, which copy options through unchanged, are not modelled.
- `rows` and `columns` are taken to be positive (`ValidGrid`); the source divides by them without checking.
- Entries are values, not mutated dictionaries. Repairs and the `hidden` update are returned results (Specials.Repair, Entries.NormalizeHidden).
- The global `exists_hidden` is returned as hidden flags and not shared between calls.
- In the older script, domino `start`, `finish` and `loop` come from option lookups. They are passed in resolved.
- Special cards among dominoes are never honoured in either version. The model takes domino pairs as `Pair` values, so the `continue` for special pairs is not modelled.
- The `[row, column]` substitution values are integers in the source. The model turns them into text at substitution time.
- Dominoes.DominoCards: its own contract states only the title failure; the key and body properties are in Dominoes.DominoCardsKeys and Dominoes.DominoRun.
- Layout: models the corrected card loop, which uses the presift's classification of each card. The source checks each card again (jigsaw/generate.py:756-758); that behaviour is CardSortFindings.RecheckCount, see "## Findings".
- Rendered: models the corrected solution page break, at the first place of a page. The source breaks on every `rows * columns`-th card (jigsaw/generate.py:792-795); that behaviour is CardSortFindings.SolutionBreakAsWritten, see "## Findings".
- CardsortCards: built on Layout and Rendered, so it models the corrected card loop and solution page break, not jigsaw/generate.py:674-833 as written.
- MakeCardsortCards: computes CardsortCards, so it models the same corrected behaviour.
- ParseInt: accepts ASCII digits only. Python's `int()` also accepts other Unicode decimal digits, which the model refuses.
- YAML floats are `real` values, so `inf` and `nan` are not represented. Lists and nested mappings as entries are not represented either. Numbers, booleans, floats and null as entries are (`Bare`).
- Layout files are taken to be well formed (Jigsaw.LayoutFits): every solution card has as many references as its shape has sides, and every card and slot has an orientation. The shuffled orders and rotations handed in are permutations and in range (`OrderFits`, `IsPermutation`).
- Pieces.PieceCode, CardSort.ItemText and Dominoes.DominoText carry no contract of their own. Their output is stated by Pieces.Codes, CardSort.ItemSubs with CardSort.AddItem, and Dominoes.DominoSubs with Dominoes.AddDomino.
- Substitution.DoSub, Templates.SplitTex and Templates.SplitMd carry no contract of their own. Their properties are stated by Substitution.PlaceholderReplaced, Substitution.NoPlaceholderUnchanged, Templates.SplitTexJoined and Templates.SplitMdJoined.

## Findings

| source | as written | input that shows it | evidently intended | confidence | as-written member | corrected member |
|---|---|---|---|---|---|---|
| jigsaw/generate.py:792-795 | the solution starts a page on every `rows * columns`-th card, ignoring honoured `newpage` cards | unshuffled cards `A`, `{newpage: true}`, `B` with one row of two columns: the puzzle puts `B` on a new page, the solution puts it on the first page in `A`'s cell | the solution breaks pages where the puzzle does, at place 0 | not executed | CardSortFindings.SolutionBreakMissed | CardSort.PageCellsDistinct |
| jigsaw/generate.py:756-758 | the card loop checks each card again after the presift repaired it, so a card can change class | `{newlabel: 5, size: 1}` in a card sort whose layout has no table template (otherwise `make_table` repairs the card before the presift sees it): special at the presift, real in the loop, which then looks up a puzzle position in an empty `cardorder` | the loop uses the presift's classification | not executed | CardSortFindings.RecheckOverruns | CardSort.Layout |
| jigsaw-generate.py:648 | a `newpage` card looks up `layout['shuffleCards']`, which raises `KeyError` when the layout omits the option | a layout without `shuffleCards` and the cards `A`, `{newpage: true}`, `B` | the option with its default, as at jigsaw-generate.py:625 | not executed | CardSortFindings.LegacyNewpageStops | CardSort.Rule |
| jigsaw-generate.py:1452-1459 | the last group of the Markdown template pattern is lazy, so `end_document` is always empty | a Markdown template whose end-of-document section is `</div>` | the rest of the template, as in jigsaw/generate.py:1806 | not executed | Templates.LegacyLosesEnd | Templates.SplitMdJoined |
