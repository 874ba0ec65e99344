/** The older standalone script's entry formatter, and the choice between
    the two generator versions.  The older formatter knows only `text`,
    `size`, `hidden` and the label keys, and takes a hide mode instead of a
    puzzle/solution flag. */
module Formatting {
  import opened Wrappers
  import opened Text
  import opened Yaml
  import opened Entries
  import opened Images

  /** What the older formatter does with a hidden entry: blank it, mark
      it, or show it plainly. */
  datatype HideMode = Hide | Mark | Ignore

  /** The packaged generator (`jigsaw/generate.py`) or the older
      standalone script (`jigsaw-generate.py`). */
  datatype Version = Packaged | Legacy

  /** The older formatter's size computation, written inline there. */
  function LegacyEntrySize(d: Dict, defaultSize: int): int {
    if "size" in d then
      match AsInt(d["size"])
      case Some(k) =>
        var size := defaultSize + k;
        if size < 0 then 0 else if size >= |Sizes| then |Sizes| - 1 else size
      case None => defaultSize
    else defaultSize
  }

  /** The inline size computation is the packaged `make_entry_size` for
      the key `size` without a fallback entry size. */
  lemma LegacySizeAgrees(d: Dict, defaultSize: int)
    ensures LegacyEntrySize(d, defaultSize) == MakeEntrySize(d, "size", defaultSize, None)
  {
  }

  /** Whether the older formatter reports an entry as hidden. */
  predicate LegacyHidden(e: Entry) {
    e.Record? && "text" in e.fields && "hidden" in e.fields && Truthy(e.fields["hidden"])
  }

  /** The older formatter returns normally with this hide mode: the label
      can be made and, unless a hidden entry is blanked, `text` is a
      string whose size index exists.  It reads no other text key. */
  predicate LegacyFormattable(e: Entry, defaultSize: int, mode: HideMode, style: Style,
                              defaultLabel: string, defaultLabelSize: int) {
    && LabelOk(e, style, defaultLabel, defaultLabelSize)
    && match e
       case Plain(_) => ValidSize(defaultSize)
       case Bare(_) => false
       case Record(d) =>
         "text" in d && !(LegacyHidden(e) && mode == Hide) ==>
           d["text"].Str? && ValidSize(LegacyEntrySize(d, defaultSize))
  }

  /** `make_entry` of the older script: `text` at its `size`; a hidden
      entry is blanked (label included) under `Hide`, marked under `Mark`
      and shown plainly under `Ignore`. */
  function LegacyMakeEntry(e: Entry, defaultSize: int, mode: HideMode, style: Style,
                           defaultLabel: string, defaultLabelSize: int, blank: string): (r: Formatted)
    requires LegacyFormattable(e, defaultSize, mode, style, defaultLabel, defaultLabelSize)
    ensures r.hidden <==> LegacyHidden(e)
    ensures LegacyHidden(e) && mode == Hide ==> r == Formatted(EmptyCell(style, blank), "", true)
    ensures e.Record? && "text" in e.fields && !(LegacyHidden(e) && mode == Hide) ==>
              r.cardLabel == MakeEntryLabel(e, style, defaultLabel, defaultLabelSize) &&
              r.text == MakeEntryUtil(e.fields["text"].s, SizeName(LegacyEntrySize(e.fields, defaultSize)),
                                      LegacyHidden(e) && mode == Mark, style, blank)
    ensures e.Plain? ==>
              r == Formatted(MakeEntryUtil(e.text, SizeName(defaultSize), false, style, blank),
                             MakeEntryLabel(e, style, defaultLabel, defaultLabelSize), false)
    ensures e.Record? && "text" !in e.fields ==>
              r == Formatted(EmptyCell(style, blank), MakeEntryLabel(e, style, defaultLabel, defaultLabelSize), false)
  {
    var lbl := MakeEntryLabel(e, style, defaultLabel, defaultLabelSize);
    match e
    case Plain(t) => Formatted(MakeEntryUtil(t, SizeName(defaultSize), false, style, blank), lbl, false)
    case Bare(_) => Formatted("", "", false)
    case Record(d) =>
      if "text" !in d then Formatted(EmptyCell(style, blank), lbl, false)
      else
        var size := LegacyEntrySize(d, defaultSize);
        if "hidden" in d && Truthy(d["hidden"]) then
          match mode
          case Hide => Formatted(EmptyCell(style, blank), "", true)
          case Mark => Formatted(MakeEntryUtil(d["text"].s, SizeName(size), true, style, blank), lbl, true)
          case Ignore => Formatted(MakeEntryUtil(d["text"].s, SizeName(size), false, style, blank), lbl, true)
        else
          Formatted(MakeEntryUtil(d["text"].s, SizeName(size), false, style, blank), lbl, false)
  }

  /** Under `Mark` a hidden entry shows its `text` at its `size`,
      highlighted: `{hidden}{…}` on a TikZ card, `(*) ` before it in a
      table or in Markdown. */
  lemma LegacyMarkShows(d: Dict, defaultSize: int, style: Style, defaultLabel: string,
                        defaultLabelSize: int, blank: string)
    requires LegacyFormattable(Record(d), defaultSize, Mark, style, defaultLabel, defaultLabelSize)
    requires LegacyHidden(Record(d))
    ensures d["text"].Str? && ValidSize(LegacyEntrySize(d, defaultSize))
    ensures var r := LegacyMakeEntry(Record(d), defaultSize, Mark, style, defaultLabel, defaultLabelSize, blank).text;
            var t := RStrip(d["text"].s);
            && (style == Tikz ==> r == "{hidden}{" + SizeName(LegacyEntrySize(d, defaultSize)) + " " + ImageRewrite(t) + "}")
            && (style == Table ==> r == "(*) " + ImageRewrite(t))
            && (style == Md ==> r == "(*) " + t)
  {
  }

  /** In `Ignore` mode a hidden entry is drawn exactly as if it were not
      hidden; only the reported flag differs. */
  lemma LegacyIgnoreShowsPlainly(d: Dict, defaultSize: int, style: Style, defaultLabel: string,
                                 defaultLabelSize: int, blank: string)
    requires LegacyFormattable(Record(d), defaultSize, Ignore, style, defaultLabel, defaultLabelSize)
    requires "text" in d
    ensures LegacyFormattable(Record(d["hidden" := Bool(false)]), defaultSize, Mark, style, defaultLabel, defaultLabelSize)
    ensures LegacyMakeEntry(Record(d), defaultSize, Ignore, style, defaultLabel, defaultLabelSize, blank).text
         == LegacyMakeEntry(Record(d["hidden" := Bool(false)]), defaultSize, Mark, style, defaultLabel, defaultLabelSize, blank).text
  {
    var d' := d["hidden" := Bool(false)];
    HiddenKeyAside(d, defaultSize, style, defaultLabel, defaultLabelSize);
    assert d'["text"] == d["text"] && !LegacyHidden(Record(d'));
    assert d["text"].Str? && ValidSize(LegacyEntrySize(d, defaultSize));
    var shown := MakeEntryUtil(d["text"].s, SizeName(LegacyEntrySize(d, defaultSize)), false, style, blank);
    assert LegacyMakeEntry(Record(d), defaultSize, Ignore, style, defaultLabel, defaultLabelSize, blank).text == shown;
    assert LegacyMakeEntry(Record(d'), defaultSize, Mark, style, defaultLabel, defaultLabelSize, blank).text == shown;
  }

  /** Setting `hidden` touches neither the label nor the size. */
  lemma HiddenKeyAside(d: Dict, defaultSize: int, style: Style, defaultLabel: string, defaultLabelSize: int)
    requires LabelOk(Record(d), style, defaultLabel, defaultLabelSize)
    ensures LabelOk(Record(d["hidden" := Bool(false)]), style, defaultLabel, defaultLabelSize)
    ensures MakeEntryLabel(Record(d["hidden" := Bool(false)]), style, defaultLabel, defaultLabelSize)
         == MakeEntryLabel(Record(d), style, defaultLabel, defaultLabelSize)
    ensures LegacyEntrySize(d["hidden" := Bool(false)], defaultSize) == LegacyEntrySize(d, defaultSize)
  {
    var d' := d["hidden" := Bool(false)];
    assert LabelText(Record(d'), defaultLabel) == LabelText(Record(d), defaultLabel);
    assert LabelSize(Record(d'), defaultLabelSize) == LabelSize(Record(d), defaultLabelSize);
    assert "size" in d' <==> "size" in d;
    assert "size" in d ==> d'["size"] == d["size"];
  }

  /** Puzzle views use `hide`, solution views `mark`, in every caller of
      the older formatter. */
  function ModeFor(solution: bool): HideMode {
    if solution then Mark else Hide
  }

  /** The chosen version's `make_entry` returns normally in this view. */
  predicate CanFormat(v: Version, e: Entry, defaultSize: int, style: Style, defaultLabel: string,
                      defaultLabelSize: int, solution: bool) {
    match v
    case Packaged => Formattable(e, defaultSize, style, defaultLabel, defaultLabelSize, solution)
    case Legacy => LegacyFormattable(e, defaultSize, ModeFor(solution), style, defaultLabel, defaultLabelSize)
  }

  /** The older script never reads `solutiontext`, so an ill-typed one
      does not stop it. */
  lemma LegacySkipsSolutionText(defaultSize: int, style: Style, solution: bool)
    requires ValidSize(defaultSize)
    ensures CanFormat(Legacy, Record(map["text" := Str("a"), "solutiontext" := Int(5)]), defaultSize, style, "", 0, solution)
  {
  }

  /** The puzzle view blanks a hidden entry without reading its `text`,
      so an ill-typed one does not stop the packaged generator there. */
  lemma PuzzleSkipsHiddenText(defaultSize: int, style: Style)
    ensures CanFormat(Packaged, Record(map["text" := Int(5), "hidden" := Bool(true)]), defaultSize, style, "", 0, false)
  {
  }

  /** An entry written for the older script (no puzzle- or solution-specific
      keys) is formatted identically by both versions, and one version
      raises on it exactly when the other does. */
  lemma VersionsAgree(e: Entry, defaultSize: int, style: Style, defaultLabel: string,
                      defaultLabelSize: int, blank: string, solution: bool)
    requires e.Record? ==> "puzzletext" !in e.fields && "solutiontext" !in e.fields
    ensures CanFormat(Packaged, e, defaultSize, style, defaultLabel, defaultLabelSize, solution)
        <==> CanFormat(Legacy, e, defaultSize, style, defaultLabel, defaultLabelSize, solution)
    ensures CanFormat(Packaged, e, defaultSize, style, defaultLabel, defaultLabelSize, solution) ==>
              LegacyMakeEntry(e, defaultSize, ModeFor(solution), style, defaultLabel, defaultLabelSize, blank)
              == MakeEntry(e, defaultSize, style, defaultLabel, defaultLabelSize, blank, solution)
  {
    if e.Record? {
      assert NormalizeHidden(e.fields) == e.fields;
      LegacySizeAgrees(e.fields, defaultSize);
      assert ShownSize(e.fields, defaultSize, solution) == LegacyEntrySize(e.fields, defaultSize);
    }
  }

  /** The default label matters only through the label text it yields:
      two defaults giving the entry the same label text format it alike. */
  lemma DefaultLabelOnlyThroughText(v: Version, e: Entry, defaultSize: int, style: Style, l1: string, l2: string,
                                    defaultLabelSize: int, blank: string, solution: bool)
    requires CanFormat(v, e, defaultSize, style, l1, defaultLabelSize, solution)
    requires LabelText(e, l1) == LabelText(e, l2)
    ensures CanFormat(v, e, defaultSize, style, l2, defaultLabelSize, solution)
    ensures FormatEntry(v, e, defaultSize, style, l1, defaultLabelSize, blank, solution)
         == FormatEntry(v, e, defaultSize, style, l2, defaultLabelSize, blank, solution)
  {
    assert MakeEntryLabel(e, style, l1, defaultLabelSize) == MakeEntryLabel(e, style, l2, defaultLabelSize);
    if v == Packaged {
      PackagedLabelOnlyThroughText(e, defaultSize, style, l1, l2, defaultLabelSize, blank, solution);
    } else {
      LegacyLabelOnlyThroughText(e, defaultSize, style, l1, l2, defaultLabelSize, blank, ModeFor(solution));
    }
  }

  /** `DefaultLabelOnlyThroughText` for the packaged formatter. */
  lemma PackagedLabelOnlyThroughText(e: Entry, defaultSize: int, style: Style, l1: string, l2: string,
                                     defaultLabelSize: int, blank: string, solution: bool)
    requires Formattable(e, defaultSize, style, l1, defaultLabelSize, solution)
    requires Formattable(e, defaultSize, style, l2, defaultLabelSize, solution)
    requires MakeEntryLabel(e, style, l1, defaultLabelSize) == MakeEntryLabel(e, style, l2, defaultLabelSize)
    ensures MakeEntry(e, defaultSize, style, l1, defaultLabelSize, blank, solution)
         == MakeEntry(e, defaultSize, style, l2, defaultLabelSize, blank, solution)
  {
  }

  /** `DefaultLabelOnlyThroughText` for the older formatter. */
  lemma LegacyLabelOnlyThroughText(e: Entry, defaultSize: int, style: Style, l1: string, l2: string,
                                   defaultLabelSize: int, blank: string, mode: HideMode)
    requires LegacyFormattable(e, defaultSize, mode, style, l1, defaultLabelSize)
    requires LegacyFormattable(e, defaultSize, mode, style, l2, defaultLabelSize)
    requires MakeEntryLabel(e, style, l1, defaultLabelSize) == MakeEntryLabel(e, style, l2, defaultLabelSize)
    ensures LegacyMakeEntry(e, defaultSize, mode, style, l1, defaultLabelSize, blank)
         == LegacyMakeEntry(e, defaultSize, mode, style, l2, defaultLabelSize, blank)
  {
  }

  /** Whether formatting `e` in version `v` reports it as hidden. */
  predicate IsHidden(v: Version, e: Entry) {
    match v
    case Packaged => EntryHidden(e)
    case Legacy => LegacyHidden(e)
  }

  /** `make_entry` of the chosen version, in its puzzle or solution view. */
  function FormatEntry(v: Version, e: Entry, defaultSize: int, style: Style, defaultLabel: string,
                       defaultLabelSize: int, blank: string, solution: bool): (r: Formatted)
    requires CanFormat(v, e, defaultSize, style, defaultLabel, defaultLabelSize, solution)
    ensures r.hidden == IsHidden(v, e)
    ensures !solution && IsHidden(v, e) && (e.Record? ==> "puzzletext" !in e.fields) ==>
              r == Formatted(EmptyCell(style, blank), "", true)
  {
    match v
    case Packaged =>
      MakeEntry(e, defaultSize, style, defaultLabel, defaultLabelSize, blank, solution)
    case Legacy => LegacyMakeEntry(e, defaultSize, ModeFor(solution), style, defaultLabel, defaultLabelSize, blank)
  }
}
