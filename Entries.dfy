/** Formatting of one content entry for a LaTeX table, a TikZ card or
    Markdown, as the packaged generator does it: font sizes, labels, image
    rewriting, and the hidden/puzzle/solution variants of an entry. */
module Entries {
  import opened Wrappers
  import opened Text
  import opened Yaml
  import opened Images

  /** The LaTeX font sizes, smallest first. */
  const Sizes: seq<string> := [
    "\\tiny", "\\scriptsize", "\\footnotesize", "\\small", "\\normalsize",
    "\\large", "\\Large", "\\LARGE", "\\huge", "\\Huge"]

  /** Index of `\normalsize` in `Sizes`. */
  const NormalSize := 4

  /** Indices Python accepts for `sizes[k]`, negative ones counting from
      the end. */
  predicate ValidSize(k: int) {
    -|Sizes| <= k < |Sizes|
  }

  function SizeName(k: int): string
    requires ValidSize(k)
  {
    if k >= 0 then Sizes[k] else Sizes[|Sizes| + k]
  }

  datatype Style = Table | Tikz | Md

  /** The size index named by `key` in an entry: the default size plus the
      entry's relative size, clamped to the valid range; the fallback
      (`entrySize`, else `defaultSize`) when the key is absent or its value
      is not an integer. */
  function MakeEntrySize(d: Dict, key: string, defaultSize: int, entrySize: Option<int>): (r: int)
    ensures key in d && AsInt(d[key]).Some? ==> 0 <= r < |Sizes|
    ensures key in d && AsInt(d[key]).Some? ==>
              var want := defaultSize + AsInt(d[key]).value;
              && (0 <= want < |Sizes| ==> r == want)
              && (want < 0 ==> r == 0)
              && (want >= |Sizes| ==> r == |Sizes| - 1)
    ensures !(key in d && AsInt(d[key]).Some?) ==> r == entrySize.GetOr(defaultSize)
  {
    if key in d && AsInt(d[key]).Some? then
      var size := defaultSize + AsInt(d[key]).value;
      if size < 0 then 0 else if size >= |Sizes| then |Sizes| - 1 else size
    else entrySize.GetOr(defaultSize)
  }

  /** The body of a formatted entry once its text, size and marking are
      known.  A marked TikZ entry is drawn with the `hidden` style, a
      marked table or Markdown entry is prefixed by `(*) `; LaTeX output has
      its image references rewritten, Markdown keeps them and shows `blank`
      for empty text.  Trailing whitespace is dropped first. */
  function MakeEntryUtil(text: string, size: string, markHidden: bool, style: Style, blank: string): (r: string)
    ensures style == Tikz ==>
              r == (if markHidden then "{hidden}{" else "{regular}{") + size + " " + ImageRewrite(RStrip(text)) + "}"
    ensures style == Table ==> r == (if markHidden then "(*) " else "") + ImageRewrite(RStrip(text))
    ensures style == Md && markHidden ==> r == "(*) " + RStrip(text)
    ensures style == Md && !markHidden ==> r == (if RStrip(text) != [] then RStrip(text) else blank)
  {
    var t := RStrip(text);
    match style
    case Table => (if markHidden then "(*) " else "") + ImageRewrite(t)
    case Tikz => (if markHidden then "{hidden}{" else "{regular}{") + size + " " + ImageRewrite(t) + "}"
    case Md =>
      if markHidden then "(*) " + t
      else if t != [] then t else blank
  }

  /** A TikZ entry starts with `{hidden}{` exactly when it is marked, and
      with `{regular}{` exactly when it is not. */
  lemma TikzMarker(text: string, size: string, markHidden: bool, blank: string)
    ensures var r := MakeEntryUtil(text, size, markHidden, Tikz, blank);
            && ("{hidden}{" <= r <==> markHidden)
            && ("{regular}{" <= r <==> !markHidden)
  {
    var open: string := if markHidden then "{hidden}{" else "{regular}{";
    var r := MakeEntryUtil(text, size, markHidden, Tikz, blank);
    var rest := size + " " + ImageRewrite(RStrip(text)) + "}";
    assert r == open + rest by {
      SeqAssoc4(open, size, " ", ImageRewrite(RStrip(text)), "}");
    }
    PrefixOfConcat(open, rest);
    assert r[1] == open[1];
  }

  lemma SeqAssoc4(a: string, b: string, c: string, d: string, e: string)
    ensures a + b + c + d + e == a + (b + c + d + e)
  {
  }

  lemma PrefixOfConcat(a: string, b: string)
    ensures a <= a + b
  {
    assert (a + b)[..|a|] == a;
  }

  /** What an entry shows when it has no usable text, or is hidden. */
  function EmptyCell(style: Style, blank: string): string {
    MakeEntryUtil("", "", false, style, blank)
  }

  /** An entry's own `label`, when it has one, is a string: the formatter
      calls `rstrip()` on it. */
  predicate LabelTyped(e: Entry) {
    e.Record? && "label" in e.fields ==> e.fields["label"].Str?
  }

  /** The label text in force for an entry: its own `label`, else the
      default, with trailing whitespace removed. */
  function LabelText(e: Entry, defaultLabel: string): string
    requires LabelTyped(e)
  {
    RStrip(if e.Record? && "label" in e.fields then e.fields["label"].s else defaultLabel)
  }

  /** The label size in force for an entry, as an index into `Sizes`: its
      own `labelsize` (a boolean indexes as 0 or 1), else the default;
      `None` for a value Python cannot index with. */
  function LabelSize(e: Entry, defaultLabelSize: int): Option<int> {
    if e.Record? && "labelsize" in e.fields then
      match e.fields["labelsize"]
      case Int(k) => Some(k)
      case Bool(b) => Some(if b then 1 else 0)
      case _ => None
    else Some(defaultLabelSize)
  }

  /** `make_entry_label` returns normally: a string `label`, and a usable
      size index whenever a TikZ label is printed. */
  predicate LabelOk(e: Entry, style: Style, defaultLabel: string, defaultLabelSize: int) {
    && LabelTyped(e)
    && (style == Tikz && LabelText(e, defaultLabel) != [] ==>
          LabelSize(e, defaultLabelSize).Some? && ValidSize(LabelSize(e, defaultLabelSize).value))
  }

  /** `make_entry_label`: the label of an entry in the given style.  The
      table rewrites its images, TikZ sets it in its font size (nothing
      when there is no label text), and Markdown shows it as it is. */
  function MakeEntryLabel(e: Entry, style: Style, defaultLabel: string, defaultLabelSize: int): (r: string)
    requires LabelOk(e, style, defaultLabel, defaultLabelSize)
    ensures style == Md ==> r == LabelText(e, defaultLabel)
    ensures style == Table ==> r == ImageRewrite(LabelText(e, defaultLabel))
    ensures style == Tikz && LabelText(e, defaultLabel) == [] ==> r == []
    ensures style == Tikz && LabelText(e, defaultLabel) != [] ==>
              r == SizeName(LabelSize(e, defaultLabelSize).value) + " " + ImageRewrite(LabelText(e, defaultLabel))
  {
    var labelText := LabelText(e, defaultLabel);
    match style
    case Table => ImageRewrite(labelText)
    case Tikz =>
      if labelText != [] then SizeName(LabelSize(e, defaultLabelSize).value) + " " + ImageRewrite(labelText) else ""
    case Md => labelText
  }

  /** The formatted body, the label and whether the entry counts as hidden
      (the generator's global `exists_hidden` is the disjunction of these
      flags over every entry it formats). */
  datatype Formatted = Formatted(text: string, cardLabel: string, hidden: bool)

  /** An entry mapping has the text it needs: `text`, or both `puzzletext`
      and `solutiontext`. */
  predicate HasText(d: Dict) {
    "text" in d || ("puzzletext" in d && "solutiontext" in d)
  }

  /** `hidden` as the entry states it; a `solutiontext` without a `hidden`
      key counts as hidden. */
  predicate HiddenValue(d: Dict) {
    if "hidden" in d then Truthy(d["hidden"]) else "solutiontext" in d
  }

  /** Whether formatting the entry reports it as hidden. */
  predicate EntryHidden(e: Entry) {
    e.Record? && HasText(e.fields) && HiddenValue(e.fields)
  }

  /** The key whose text a view of an entry mapping shows: in the
      solution `solutiontext`, else `text`; in the puzzle `puzzletext`,
      else nothing for a hidden entry, else `text`. */
  function ShownKey(d: Dict, solution: bool): (r: Option<string>)
    requires HasText(d)
    ensures r.Some? ==> r.value in d
  {
    if solution then Some(if "solutiontext" in d then "solutiontext" else "text")
    else if "puzzletext" in d then Some("puzzletext")
    else if HiddenValue(d) then None
    else Some("text")
  }

  /** The size index of the text a view shows: the view's own size key
      when its own text is shown, with the entry's `size` as fallback. */
  function ShownSize(d: Dict, defaultSize: int, solution: bool): int {
    var size := MakeEntrySize(d, "size", defaultSize, None);
    if solution && "solutiontext" in d then MakeEntrySize(d, "solutionsize", defaultSize, Some(size))
    else if !solution && "puzzletext" in d then MakeEntrySize(d, "puzzlesize", defaultSize, Some(size))
    else size
  }

  /** The in-place update `entry['hidden'] = True` made when a
      `solutiontext` is present without a `hidden` key. */
  function NormalizeHidden(d: Dict): (r: Dict)
    ensures HiddenValue(r) == HiddenValue(d)
    ensures "hidden" in r <==> "hidden" in d || "solutiontext" in d
    ensures forall k :: k != "hidden" ==> (k in r <==> k in d) && (k in d ==> r[k] == d[k])
  {
    if "solutiontext" in d && "hidden" !in d then d["hidden" := Bool(true)] else d
  }

  /** `make_entry` of the packaged generator returns normally in this
      view: the label can be made, and the text the view shows is a string
      whose size index exists.  A plain entry is shown at the default size;
      any other scalar has no `rstrip()`, so formatting it raises. */
  predicate Formattable(e: Entry, defaultSize: int, style: Style, defaultLabel: string, defaultLabelSize: int,
                        solution: bool) {
    && LabelOk(e, style, defaultLabel, defaultLabelSize)
    && match e
       case Plain(_) => ValidSize(defaultSize)
       case Bare(_) => false
       case Record(d) =>
         HasText(d) && ShownKey(d, solution).Some? ==>
           d[ShownKey(d, solution).value].Str? && ValidSize(ShownSize(d, defaultSize, solution))
  }

  /** `make_entry` of the packaged generator: the puzzle view
      (`solution == false`) or the solution view of an entry.  A plain
      string is shown at the default size; a mapping without usable text
      gives an empty cell; otherwise the view shows the text of
      `ShownKey` at `ShownSize`, marked in the solution when the entry is
      hidden, and the puzzle blanks a hidden entry without `puzzletext`,
      label included. */
  function MakeEntry(e: Entry, defaultSize: int, style: Style, defaultLabel: string,
                     defaultLabelSize: int, blank: string, solution: bool): (r: Formatted)
    requires Formattable(e, defaultSize, style, defaultLabel, defaultLabelSize, solution)
    ensures r.hidden <==> EntryHidden(e)
    ensures e.Plain? ==>
              r == Formatted(MakeEntryUtil(e.text, SizeName(defaultSize), false, style, blank),
                             MakeEntryLabel(e, style, defaultLabel, defaultLabelSize), false)
    ensures e.Record? && !HasText(e.fields) ==>
              r == Formatted(EmptyCell(style, blank), MakeEntryLabel(e, style, defaultLabel, defaultLabelSize), false)
    ensures e.Record? && HasText(e.fields) && ShownKey(e.fields, solution).None? ==>
              r == Formatted(EmptyCell(style, blank), "", true)
    ensures e.Record? && HasText(e.fields) && ShownKey(e.fields, solution).Some? ==>
              r.cardLabel == MakeEntryLabel(e, style, defaultLabel, defaultLabelSize) &&
              r.text == MakeEntryUtil(e.fields[ShownKey(e.fields, solution).value].s,
                                      SizeName(ShownSize(e.fields, defaultSize, solution)),
                                      solution && HiddenValue(e.fields), style, blank)
  {
    var lbl := MakeEntryLabel(e, style, defaultLabel, defaultLabelSize);
    match e
    case Plain(t) => Formatted(MakeEntryUtil(t, SizeName(defaultSize), false, style, blank), lbl, false)
    case Bare(_) => Formatted("", "", false)
    case Record(d0) =>
      if !HasText(d0) then Formatted(EmptyCell(style, blank), lbl, false)
      else
        var size := MakeEntrySize(d0, "size", defaultSize, None);
        var d := NormalizeHidden(d0);
        var marked := "hidden" in d && Truthy(d["hidden"]);
        if solution then
          if "solutiontext" in d then
            var solnSize := MakeEntrySize(d, "solutionsize", defaultSize, Some(size));
            assert solnSize == ShownSize(d0, defaultSize, solution);
            Formatted(MakeEntryUtil(d["solutiontext"].s, SizeName(solnSize), marked, style, blank), lbl, marked)
          else
            Formatted(MakeEntryUtil(d["text"].s, SizeName(size), marked, style, blank), lbl, marked)
        else if "puzzletext" in d then
          var puzSize := MakeEntrySize(d, "puzzlesize", defaultSize, Some(size));
          assert puzSize == ShownSize(d0, defaultSize, solution);
          Formatted(MakeEntryUtil(d["puzzletext"].s, SizeName(puzSize), false, style, blank), lbl, marked)
        else if marked then
          Formatted(EmptyCell(style, blank), "", marked)
        else
          Formatted(MakeEntryUtil(d["text"].s, SizeName(size), false, style, blank), lbl, marked)
  }

  /** A plain string is shown, trailing whitespace removed, at the default
      size and unmarked, in either view. */
  lemma PlainShown(t: string, defaultSize: int, defaultLabel: string, defaultLabelSize: int,
                   blank: string, solution: bool)
    requires Formattable(Plain(t), defaultSize, Tikz, defaultLabel, defaultLabelSize, solution)
    ensures MakeEntry(Plain(t), defaultSize, Tikz, defaultLabel, defaultLabelSize, blank, solution).text
         == "{regular}{" + SizeName(defaultSize) + " " + ImageRewrite(RStrip(t)) + "}"
    ensures MakeEntry(Plain(t), defaultSize, Md, defaultLabel, 0, blank, solution).text
         == (if RStrip(t) != [] then RStrip(t) else blank)
  {
  }

  /** A visible entry with only `text` shows that text at its `size`, in
      the puzzle and in the solution. */
  lemma TextShown(d: Dict, defaultSize: int, defaultLabel: string, defaultLabelSize: int,
                  blank: string, solution: bool)
    requires "text" in d && "puzzletext" !in d && "solutiontext" !in d && !HiddenValue(d)
    requires Formattable(Record(d), defaultSize, Tikz, defaultLabel, defaultLabelSize, solution)
    ensures d["text"].Str?
    ensures MakeEntry(Record(d), defaultSize, Tikz, defaultLabel, defaultLabelSize, blank, solution).text
         == "{regular}{" + SizeName(MakeEntrySize(d, "size", defaultSize, None)) + " "
            + ImageRewrite(RStrip(d["text"].s)) + "}"
  {
  }

  /** The puzzle shows `puzzletext`, unmarked, at `puzzlesize` (else
      `size`), whether or not the entry is hidden. */
  lemma PuzzleTextShown(d: Dict, defaultSize: int, style: Style, defaultLabel: string,
                        defaultLabelSize: int, blank: string)
    requires "puzzletext" in d && HasText(d)
    requires Formattable(Record(d), defaultSize, style, defaultLabel, defaultLabelSize, false)
    ensures d["puzzletext"].Str?
    ensures MakeEntry(Record(d), defaultSize, style, defaultLabel, defaultLabelSize, blank, false)
         == Formatted(MakeEntryUtil(d["puzzletext"].s,
                                    SizeName(MakeEntrySize(d, "puzzlesize", defaultSize,
                                                           Some(MakeEntrySize(d, "size", defaultSize, None)))),
                                    false, style, blank),
                      MakeEntryLabel(Record(d), style, defaultLabel, defaultLabelSize),
                      HiddenValue(d))
  {
  }

  /** A hidden entry without `puzzletext` is blanked in the puzzle, label
      included. */
  lemma PuzzleBlanksHidden(e: Entry, defaultSize: int, style: Style, defaultLabel: string,
                           defaultLabelSize: int, blank: string)
    requires Formattable(e, defaultSize, style, defaultLabel, defaultLabelSize, false)
    requires EntryHidden(e) && "puzzletext" !in e.fields
    ensures MakeEntry(e, defaultSize, style, defaultLabel, defaultLabelSize, blank, false)
         == Formatted(EmptyCell(style, blank), "", true)
  {
  }

  /** A hidden entry is shown marked in the solution: its `solutiontext`
      at `solutionsize` when it has one, else its `text` at `size`. */
  lemma SolutionMarksHidden(e: Entry, defaultSize: int, style: Style, defaultLabel: string,
                            defaultLabelSize: int, blank: string)
    requires Formattable(e, defaultSize, style, defaultLabel, defaultLabelSize, true)
    requires EntryHidden(e)
    ensures var d := e.fields;
            var key := if "solutiontext" in d then "solutiontext" else "text";
            var size := if "solutiontext" in d then SolutionSize(d, defaultSize)
                        else SizeName(MakeEntrySize(d, "size", defaultSize, None));
            && key in d && d[key].Str? && ValidSize(ShownSize(d, defaultSize, true))
            && MakeEntry(e, defaultSize, style, defaultLabel, defaultLabelSize, blank, true).text
               == MakeEntryUtil(d[key].s, size, true, style, blank)
  {
  }

  /** An entry that is not hidden and has no puzzle- or solution-specific
      keys looks the same in the puzzle and in the solution. */
  lemma SameInBothViews(e: Entry, defaultSize: int, style: Style, defaultLabel: string,
                        defaultLabelSize: int, blank: string)
    requires Formattable(e, defaultSize, style, defaultLabel, defaultLabelSize, false)
    requires !EntryHidden(e)
    requires e.Record? ==> "puzzletext" !in e.fields && "solutiontext" !in e.fields
    ensures Formattable(e, defaultSize, style, defaultLabel, defaultLabelSize, true)
    ensures MakeEntry(e, defaultSize, style, defaultLabel, defaultLabelSize, blank, false)
         == MakeEntry(e, defaultSize, style, defaultLabel, defaultLabelSize, blank, true)
  {
  }

  /** The font size of an entry's solution text. */
  function SolutionSize(d: Dict, defaultSize: int): string
    requires ValidSize(ShownSize(d, defaultSize, true)) && "solutiontext" in d
  {
    SizeName(MakeEntrySize(d, "solutionsize", defaultSize, Some(MakeEntrySize(d, "size", defaultSize, None))))
  }

  /** The solution shows `solutiontext` rather than `text`, at the
      `solutionsize` when there is one; it is highlighted unless `hidden`
      is explicitly false. */
  lemma SolutionTextShown(d: Dict, defaultSize: int, style: Style, defaultLabel: string,
                          defaultLabelSize: int, blank: string)
    requires Formattable(Record(d), defaultSize, style, defaultLabel, defaultLabelSize, true)
    requires "solutiontext" in d && HasText(d)
    ensures d["solutiontext"].Str? && ValidSize(ShownSize(d, defaultSize, true))
    ensures MakeEntry(Record(d), defaultSize, style, defaultLabel, defaultLabelSize, blank, true).text
         == MakeEntryUtil(d["solutiontext"].s, SolutionSize(d, defaultSize),
                          "hidden" !in d || Truthy(d["hidden"]), style, blank)
  {
  }

  /** The generator stores `hidden: True` into an entry that has a
      `solutiontext`; formatting the updated entry again gives the same
      result, so the update is harmless for later calls. */
  lemma NormalizeHiddenInvisible(d: Dict, defaultSize: int, style: Style, defaultLabel: string,
                                 defaultLabelSize: int, blank: string, solution: bool)
    requires Formattable(Record(d), defaultSize, style, defaultLabel, defaultLabelSize, solution)
    ensures Formattable(Record(NormalizeHidden(d)), defaultSize, style, defaultLabel, defaultLabelSize, solution)
    ensures MakeEntry(Record(NormalizeHidden(d)), defaultSize, style, defaultLabel, defaultLabelSize, blank, solution)
         == MakeEntry(Record(d), defaultSize, style, defaultLabel, defaultLabelSize, blank, solution)
  {
    NormalizeHiddenKeeps(d, defaultSize, style, defaultLabel, defaultLabelSize, solution);
  }

  /** Storing `hidden` changes neither the text shown, its size nor the
      label of an entry, and storing it again changes nothing. */
  lemma NormalizeHiddenKeeps(d: Dict, defaultSize: int, style: Style, defaultLabel: string, defaultLabelSize: int,
                             solution: bool)
    requires Formattable(Record(d), defaultSize, style, defaultLabel, defaultLabelSize, solution)
    ensures var n := NormalizeHidden(d);
            && NormalizeHidden(n) == n
            && HasText(n) == HasText(d)
            && (HasText(d) ==> ShownKey(n, solution) == ShownKey(d, solution))
            && ShownSize(n, defaultSize, solution) == ShownSize(d, defaultSize, solution)
            && Formattable(Record(n), defaultSize, style, defaultLabel, defaultLabelSize, solution)
            && MakeEntryLabel(Record(n), style, defaultLabel, defaultLabelSize)
               == MakeEntryLabel(Record(d), style, defaultLabel, defaultLabelSize)
  {
    var n := NormalizeHidden(d);
    assert LabelText(Record(n), defaultLabel) == LabelText(Record(d), defaultLabel);
    assert LabelSize(Record(n), defaultLabelSize) == LabelSize(Record(d), defaultLabelSize);
    assert MakeEntrySize(n, "size", defaultSize, None) == MakeEntrySize(d, "size", defaultSize, None);
  }

  /** `cardnum`: the printed number of a card, with 6 and 9 underlined so
      that they can be told apart on a rotated card. */
  function CardNum(n: nat): (r: string)
    ensures AllDigits(r) <==> n != 6 && n != 9
  {
    assert !IsDigit(("\\underline{" + NatToString(n) + "}")[0]);
    if n == 6 || n == 9 then "\\underline{" + NatToString(n) + "}" else NatToString(n)
  }

  /** A card number reads back as its number: directly, or inside the
      underline for 6 and 9. */
  lemma CardNumReadsBack(n: nat)
    ensures n == 6 || n == 9 ==> "\\underline{" <= CardNum(n) && ParseInt(CardNum(n)[11..|CardNum(n)| - 1]) == Some(n)
    ensures !(n == 6 || n == 9) ==> ParseInt(CardNum(n)) == Some(n)
  {
    ParseIntToString(n);
    if n == 6 || n == 9 {
      UnderlinedNum(n);
    }
  }

  /** The underlined card number wraps the plain one. */
  lemma UnderlinedNum(n: nat)
    requires n == 6 || n == 9
    ensures "\\underline{" <= CardNum(n) && CardNum(n)[11..|CardNum(n)| - 1] == NatToString(n)
  {
    var d := NatToString(n);
    var r := "\\underline{" + d + "}";
    assert CardNum(n) == r;
    assert r == "\\underline{" + (d + "}");
    PrefixOfConcat("\\underline{", d + "}");
    assert r[11..|r| - 1] == d;
  }

  /** Different numbers give different card numbers. */
  lemma CardNumInjective(m: nat, n: nat)
    ensures CardNum(m) == CardNum(n) ==> m == n
  {
    if CardNum(m) == CardNum(n) {
      if m == 6 || m == 9 {
        assert CardNum(m)[11..|CardNum(m)| - 1] == NatToString(m);
        assert CardNum(n)[11..|CardNum(n)| - 1] == NatToString(n);
        NatToStringInjective(m, n);
      } else {
        NatToStringInjective(m, n);
      }
    }
  }
}
