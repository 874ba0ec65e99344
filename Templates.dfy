/** Splitting a card-sort template into its sections.  A TeX template
    holds the lines `%%% BEGIN DOCUMENT`, `%%% BEGIN PAGE`, `%%% BEGIN
    ITEM`, `%%% END PAGE` and `%%% END DOCUMENT`, in that order and each at
    the start of a line; a Markdown template holds `### BEGIN DOCUMENT`,
    `### BEGIN ITEM` and `### END DOCUMENT`.  The text between two marker
    lines is a section; anything before the first marker is ignored.

    The generator finds the sections with one multi-line regular
    expression; the scanner below takes, marker by marker, the first line
    that starts with it.  That is the match the expression's lazy groups
    settle on: a later occurrence of a marker can only leave less text in
    which to find the markers after it. */
module Templates {
  import opened Wrappers

  /** Where `^` matches in multi-line mode: at the start and after each
      newline. */
  predicate LineStart(s: string, i: nat) {
    i == 0 || (0 < i <= |s| && s[i - 1] == '\n')
  }

  /** A line of `s` that starts at `i` and begins with `marker`. */
  predicate MarkerLine(s: string, i: nat, marker: string) {
    LineStart(s, i) && i + |marker| <= |s| && s[i..i + |marker|] == marker
  }

  /** The first marker line at or after `from`. */
  function FindMarker(s: string, from: nat, marker: string): (r: Option<nat>)
    requires from <= |s|
    ensures r.Some? ==> from <= r.value && MarkerLine(s, r.value, marker)
    ensures forall i :: from <= i <= |s| && (r.None? || i < r.value) ==> !MarkerLine(s, i, marker)
    decreases |s| - from
  {
    if MarkerLine(s, from, marker) then Some(from)
    else if from < |s| then FindMarker(s, from + 1, marker)
    else None
  }

  /** `.*?^` in multi-line, dot-all mode: the next line start at or after
      `from`. */
  function NextLineStart(s: string, from: nat): (r: Option<nat>)
    requires from <= |s|
    ensures r.Some? ==> from <= r.value <= |s| && LineStart(s, r.value)
    ensures forall i :: from <= i <= |s| && (r.None? || i < r.value) ==> !LineStart(s, i)
    decreases |s| - from
  {
    if LineStart(s, from) then Some(from)
    else if from < |s| then NextLineStart(s, from + 1)
    else None
  }

  /** `.*?$` in multi-line, dot-all mode: the next line end at or after
      `from`, which always exists. */
  function LineEnd(s: string, from: nat): (r: nat)
    requires from <= |s|
    ensures from <= r <= |s| && (r == |s| || s[r] == '\n')
    ensures forall i :: from <= i < r ==> s[i] != '\n'
    decreases |s| - from
  {
    if from == |s| || s[from] == '\n' then from else LineEnd(s, from + 1)
  }

  /** How a section starts after its marker: on the next line (`.*?^`,
      the TeX templates) or at the end of the marker's line, newline
      included (`.*?$`, the Markdown templates). */
  datatype Skip = NextLine | EndOfLine

  /** Where the section after a marker ending at `i` starts. */
  function SectionStart(s: string, i: nat, skip: Skip): (r: Option<nat>)
    requires i <= |s|
    ensures r.Some? ==> i <= r.value <= |s|
  {
    match skip
    case NextLine => NextLineStart(s, i)
    case EndOfLine => Some(LineEnd(s, i))
  }

  /** The text before the first marker, then the section after each
      marker; the last section runs to the end of the text. */
  function Sections(t: string, markers: seq<string>, skip: Skip): (r: Option<seq<string>>)
    ensures r.Some? ==> |r.value| == |markers| + 1
    decreases |markers|
  {
    if markers == [] then Some([t])
    else
      match Bounds(t, markers[0], skip)
      case None => None
      case Some(b) => Prepend(t[..b.0], Sections(t[b.1..], markers[1..], skip))
  }

  /** Where the first line starting with `marker` begins, and where the
      section after it begins. */
  function Bounds(t: string, marker: string, skip: Skip): (r: Option<(nat, nat)>)
    ensures r.Some? ==> r.value.0 + |marker| <= r.value.1 <= |t|
  {
    match FindMarker(t, 0, marker)
    case None => None
    case Some(m) =>
      match SectionStart(t, m + |marker|, skip)
      case None => None
      case Some(q) => Some((m, q))
  }

  /** `head` before the sections found after it, if they were found. */
  function Prepend(head: string, rest: Option<seq<string>>): (r: Option<seq<string>>)
    ensures r.Some? <==> rest.Some?
    ensures r.Some? ==> r.value == [head] + rest.value
  {
    match rest
    case None => None
    case Some(sections) => Some([head] + sections)
  }

  const TexMarkers: seq<string> :=
    ["%%% BEGIN DOCUMENT", "%%% BEGIN PAGE", "%%% BEGIN ITEM", "%%% END PAGE", "%%% END DOCUMENT"]

  const MdMarkers: seq<string> := ["### BEGIN DOCUMENT", "### BEGIN ITEM", "### END DOCUMENT"]

  /** The sections of a TeX card template. */
  datatype TexTemplate = TexTemplate(beginDocument: string, beginPage: string, item: string,
                                     endPage: string, endDocument: string)

  /** The sections of a Markdown card template. */
  datatype MdTemplate = MdTemplate(beginDocument: string, item: string, endDocument: string)

  /** The run stops: the template lacks a marker, or a marker line is not
      followed by a newline. */
  datatype TemplateError = BadStructure

  /** The TeX template split, in both versions of the generator. */
  function SplitTex(s: string): Result<TexTemplate, TemplateError> {
    match Sections(s, TexMarkers, NextLine)
    case None => Err(BadStructure)
    case Some(g) => Ok(TexTemplate(g[1], g[2], g[3], g[4], g[5]))
  }

  /** The Markdown template split of the packaged generator. */
  function SplitMd(s: string): Result<MdTemplate, TemplateError> {
    match Sections(s, MdMarkers, EndOfLine)
    case None => Err(BadStructure)
    case Some(g) => Ok(MdTemplate(g[1], g[2], g[3]))
  }

  /** The Markdown template split of the older script, whose last group is
      lazy and so captures nothing. */
  function LegacySplitMd(s: string): (r: Result<MdTemplate, TemplateError>)
    ensures r.Ok? <==> SplitMd(s).Ok?
    ensures r.Ok? ==> r.value == SplitMd(s).value.(endDocument := "")
  {
    match Sections(s, MdMarkers, EndOfLine)
    case None => Err(BadStructure)
    case Some(g) => Ok(MdTemplate(g[1], g[2], ""))
  }

  /** A text with no line of its own that starts with `marker`. */
  predicate NoMarkerLine(a: string, marker: string) {
    forall i :: 0 <= i < |a| ==> !MarkerLine(a, i, marker)
  }

  /** A section that can be followed by a marker line: empty or ending in
      a newline. */
  predicate EndsLine(a: string) {
    a == [] || a[|a| - 1] == '\n'
  }

  /** A marker line inside `a` stays inside `a` when text follows it. */
  lemma NoMarkerInPrefix(a: string, b: string, marker: string)
    requires EndsLine(a) && NoMarkerLine(a, marker) && '\n' !in marker
    ensures forall i :: 0 <= i < |a| ==> !MarkerLine(a + b, i, marker)
  {
    forall i | 0 <= i < |a|
      ensures !MarkerLine(a + b, i, marker)
    {
      NoMarkerAt(a, b, marker, i);
    }
  }

  /** The same, at one position of `a`. */
  lemma NoMarkerAt(a: string, b: string, marker: string, i: nat)
    requires EndsLine(a) && NoMarkerLine(a, marker) && '\n' !in marker && i < |a|
    ensures !MarkerLine(a + b, i, marker)
  {
    if i + |marker| <= |a| {
      assert !MarkerLine(a, i, marker);
      if LineStart(a + b, i) {
        assert (a + b)[i..i + |marker|] == a[i..i + |marker|];
      }
    } else {
      var k := |a| - 1 - i;
      assert (a + b)[i + k] == '\n';
      if i + |marker| <= |a + b| {
        assert (a + b)[i..i + |marker|][k] == '\n';
      }
    }
  }

  /** `FindMarker` stops at the first marker line. */
  lemma FindFirst(s: string, from: nat, at: nat, marker: string)
    requires from <= at <= |s| && MarkerLine(s, at, marker)
    requires forall i :: from <= i < at ==> !MarkerLine(s, i, marker)
    ensures FindMarker(s, from, marker) == Some(at)
    decreases at - from
  {
    if from < at {
      FindFirst(s, from + 1, at, marker);
    }
  }

  /** The template text with the given sections between the given
      markers, each marker on a line of its own. */
  function Joined(parts: seq<string>, markers: seq<string>, skip: Skip): string
    requires |parts| == |markers| + 1
    decreases |markers|
  {
    if markers == [] then parts[0]
    else parts[0] + markers[0] + (if skip.NextLine? then "\n" else "") + Joined(parts[1..], markers[1..], skip)
  }

  /** What a section must satisfy for the split to give it back: it ends
      its last line, does not contain the next marker line, and in
      Markdown it starts with the newline that ends the marker line. */
  predicate Separable(parts: seq<string>, markers: seq<string>, skip: Skip)
    requires |parts| == |markers| + 1
  {
    && (forall k :: 0 <= k < |markers| ==> markers[k] != [] && '\n' !in markers[k])
    && (forall k :: 0 <= k < |markers| ==> EndsLine(parts[k]) && NoMarkerLine(parts[k], markers[k]))
    && (skip.EndOfLine? ==> forall k :: 1 <= k < |parts| ==> (parts[k] != [] && parts[k][0] == '\n') || (k == |markers| && parts[k] == []))
  }

  /** A marker written right after a complete line starts a marker line. */
  lemma MarkerLineAt(a: string, m: string, b: string, t: string)
    requires EndsLine(a) && t == a + m + b
    ensures MarkerLine(t, |a|, m)
  {
    assert t[|a|..|a| + |m|] == m;
    if |a| > 0 {
      assert t[|a| - 1] == a[|a| - 1];
    }
  }

  /** The first marker line of `a + m + b`, when `a` has none, is `m`. */
  lemma FindAfterPrefix(a: string, m: string, b: string, t: string)
    requires '\n' !in m && EndsLine(a) && NoMarkerLine(a, m) && t == a + m + b
    ensures FindMarker(t, 0, m) == Some(|a|)
  {
    MarkerLineAt(a, m, b, t);
    NoMarkerInPrefix(a, m + b, m);
    assert a + (m + b) == t;
    FindFirst(t, 0, |a|, m);
  }

  /** After a TeX marker line, its section starts on the next line. */
  lemma NextLineAfterMarker(a: string, m: string, rest: string, t: string)
    requires m != [] && '\n' !in m && EndsLine(a) && t == a + m + "\n" + rest
    ensures NextLineStart(t, |a| + |m|) == Some(|a| + |m| + 1)
    ensures t[|a| + |m| + 1..] == rest
  {
    var e := |a| + |m|;
    MarkerLineAt(a, m, "\n" + rest, t);
    assert t[e - 1] == m[|m| - 1] && t[e] == '\n';
    NewlineAfter(t, e);
  }

  /** A newline not at a line start: the next line starts right after it. */
  lemma NewlineAfter(t: string, e: nat)
    requires 0 < e < |t| && t[e - 1] != '\n' && t[e] == '\n'
    ensures NextLineStart(t, e) == Some(e + 1)
  {
    assert NextLineStart(t, e + 1) == Some(e + 1);
  }

  /** After a Markdown marker, its section starts at the end of its line. */
  lemma LineEndAfterMarker(a: string, m: string, rest: string, t: string)
    requires t == a + m + rest && (rest == [] || rest[0] == '\n')
    ensures LineEnd(t, |a| + |m|) == |a| + |m|
    ensures t[|a| + |m|..] == rest
  {
  }

  /** In Markdown, the text after a marker starts with a newline or is
      empty. */
  lemma JoinedFirst(parts: seq<string>, markers: seq<string>, skip: Skip)
    requires |parts| == |markers| + 1
    requires skip.EndOfLine?
    requires (parts[0] != [] && parts[0][0] == '\n') || (|parts| == 1 && parts[0] == [])
    ensures var t := Joined(parts, markers, skip);
            t == [] || t[0] == '\n'
  {
    if |parts| > 1 {
      assert Joined(parts, markers, skip)[0] == parts[0][0];
    }
  }

  /** Splitting a joined template gives back its sections. */
  lemma {:induction false} SectionsOfJoined(parts: seq<string>, markers: seq<string>, skip: Skip)
    requires |parts| == |markers| + 1
    requires Separable(parts, markers, skip)
    ensures Sections(Joined(parts, markers, skip), markers, skip) == Some(parts)
    decreases |markers|
  {
    if markers != [] {
      SeparableTail(parts, markers, skip);
      SectionsOfJoined(parts[1..], markers[1..], skip);
      if skip.EndOfLine? {
        assert (parts[1] != [] && parts[1][0] == '\n') || (|parts| == 2 && parts[1] == []);
        JoinedFirst(parts[1..], markers[1..], skip);
      }
      JoinedStep(parts, markers, skip);
    } else {
      assert parts == [parts[0]];
    }
  }

  /** If the sections after the first marker split back, so do all. */
  lemma JoinedStep(parts: seq<string>, markers: seq<string>, skip: Skip)
    requires |parts| == |markers| + 1 && |parts| > 1
    requires markers[0] != [] && '\n' !in markers[0] && EndsLine(parts[0]) && NoMarkerLine(parts[0], markers[0])
    requires skip.EndOfLine? ==> var rest := Joined(parts[1..], markers[1..], skip);
                                 rest == [] || rest[0] == '\n'
    requires Sections(Joined(parts[1..], markers[1..], skip), markers[1..], skip) == Some(parts[1..])
    ensures Sections(Joined(parts, markers, skip), markers, skip) == Some(parts)
  {
    var rest := Joined(parts[1..], markers[1..], skip);
    JoinedHead(parts, markers, skip);
    SectionsAfterFirst(parts[0], markers, rest, skip, Joined(parts, markers, skip));
    assert [parts[0]] + parts[1..] == parts;
  }

  /** A joined template is its first section, the first marker line and
      the rest joined. */
  lemma JoinedHead(parts: seq<string>, markers: seq<string>, skip: Skip)
    requires |parts| == |markers| + 1 && |parts| > 1
    ensures skip.NextLine? ==>
              Joined(parts, markers, skip) == parts[0] + markers[0] + "\n" + Joined(parts[1..], markers[1..], skip)
    ensures skip.EndOfLine? ==>
              Joined(parts, markers, skip) == parts[0] + markers[0] + Joined(parts[1..], markers[1..], skip)
  {
  }

  /** The sections of a text made of `a`, the first marker line and
      `rest`: `a`, then the sections of `rest`. */
  lemma SectionsAfterFirst(a: string, markers: seq<string>, rest: string, skip: Skip, t: string)
    requires markers != [] && markers[0] != [] && '\n' !in markers[0] && EndsLine(a) && NoMarkerLine(a, markers[0])
    requires skip.NextLine? ==> t == a + markers[0] + "\n" + rest
    requires skip.EndOfLine? ==> t == a + markers[0] + rest && (rest == [] || rest[0] == '\n')
    ensures Sections(t, markers, skip) == Prepend(a, Sections(rest, markers[1..], skip))
  {
    if skip.NextLine? {
      SectionsAfterTexMarker(a, markers, rest, t);
    } else {
      SectionsAfterMdMarker(a, markers, rest, t);
    }
  }

  /** `SectionsAfterFirst` for a TeX marker, followed by its newline. */
  lemma SectionsAfterTexMarker(a: string, markers: seq<string>, rest: string, t: string)
    requires markers != [] && markers[0] != [] && '\n' !in markers[0] && EndsLine(a) && NoMarkerLine(a, markers[0])
    requires t == a + markers[0] + "\n" + rest
    ensures Sections(t, markers, NextLine) == Prepend(a, Sections(rest, markers[1..], NextLine))
  {
    var q := |a| + |markers[0]| + 1;
    assert FindMarker(t, 0, markers[0]) == Some(|a|) && t[..|a|] == a by {
      assert t == a + markers[0] + ("\n" + rest);
      FirstMarker(a, markers[0], "\n" + rest, t);
    }
    assert SectionStart(t, |a| + |markers[0]|, NextLine) == Some(q) && t[q..] == rest by {
      NextLineAfterMarker(a, markers[0], rest, t);
    }
    SectionsStep(t, markers, NextLine, |a|, q);
  }

  /** `SectionsAfterFirst` for a Markdown marker, whose section starts
      with the newline that ends its line. */
  lemma SectionsAfterMdMarker(a: string, markers: seq<string>, rest: string, t: string)
    requires markers != [] && markers[0] != [] && '\n' !in markers[0] && EndsLine(a) && NoMarkerLine(a, markers[0])
    requires t == a + markers[0] + rest && (rest == [] || rest[0] == '\n')
    ensures Sections(t, markers, EndOfLine) == Prepend(a, Sections(rest, markers[1..], EndOfLine))
  {
    var q := |a| + |markers[0]|;
    assert FindMarker(t, 0, markers[0]) == Some(|a|) && t[..|a|] == a by {
      FirstMarker(a, markers[0], rest, t);
    }
    assert SectionStart(t, q, EndOfLine) == Some(q) && t[q..] == rest by {
      LineEndAfterMarker(a, markers[0], rest, t);
    }
    SectionsStep(t, markers, EndOfLine, |a|, q);
  }

  /** The scanner finds the first marker of a joined template where it was
      written. */
  lemma FirstMarker(a: string, m: string, b: string, t: string)
    requires '\n' !in m && EndsLine(a) && NoMarkerLine(a, m) && t == a + m + b
    ensures FindMarker(t, 0, m) == Some(|a|)
    ensures t[..|a|] == a
  {
    FindAfterPrefix(a, m, b, t);
  }

  /** The sections after the first still satisfy `Separable`. */
  lemma SeparableTail(parts: seq<string>, markers: seq<string>, skip: Skip)
    requires |parts| == |markers| + 1 && |parts| > 1
    requires Separable(parts, markers, skip)
    ensures Separable(parts[1..], markers[1..], skip)
  {
    forall k | 1 <= k < |parts[1..]| && skip.EndOfLine?
      ensures (parts[1..][k] != [] && parts[1..][k][0] == '\n') || (k == |markers[1..]| && parts[1..][k] == [])
    {
      assert parts[1..][k] == parts[k + 1];
    }
  }

  /** One marker of `Sections`: the text before it, then the sections
      after it. */
  lemma SectionsStep(t: string, markers: seq<string>, skip: Skip, m: nat, q: nat)
    requires markers != [] && m + |markers[0]| <= q <= |t|
    requires FindMarker(t, 0, markers[0]) == Some(m)
    requires SectionStart(t, m + |markers[0]|, skip) == Some(q)
    ensures Sections(t, markers, skip) == Prepend(t[..m], Sections(t[q..], markers[1..], skip))
  {
    BoundsAt(t, markers[0], skip, m, q);
  }

  /** `Bounds` of a marker found at `m` whose section starts at `q`. */
  lemma BoundsAt(t: string, marker: string, skip: Skip, m: nat, q: nat)
    requires m + |marker| <= |t|
    requires FindMarker(t, 0, marker) == Some(m) && SectionStart(t, m + |marker|, skip) == Some(q)
    ensures Bounds(t, marker, skip) == Some((m, q))
  {
  }

  /** A TeX template written as the preamble, then each marker on a line
      of its own followed by its section, splits back into those sections. */
  lemma SplitTexJoined(t: TexTemplate, preamble: string)
    requires Separable([preamble, t.beginDocument, t.beginPage, t.item, t.endPage, t.endDocument], TexMarkers, NextLine)
    ensures SplitTex(Joined([preamble, t.beginDocument, t.beginPage, t.item, t.endPage, t.endDocument], TexMarkers, NextLine))
         == Ok(t)
  {
    SectionsOfJoined([preamble, t.beginDocument, t.beginPage, t.item, t.endPage, t.endDocument], TexMarkers, NextLine);
  }

  /** The same for a Markdown template in the packaged generator. */
  lemma SplitMdJoined(t: MdTemplate, preamble: string)
    requires Separable([preamble, t.beginDocument, t.item, t.endDocument], MdMarkers, EndOfLine)
    ensures SplitMd(Joined([preamble, t.beginDocument, t.item, t.endDocument], MdMarkers, EndOfLine)) == Ok(t)
  {
    SectionsOfJoined([preamble, t.beginDocument, t.item, t.endDocument], MdMarkers, EndOfLine);
  }

  /** A Markdown template whose end-of-document section is not empty: the
      older script drops that section. */
  lemma LegacyLosesEnd()
    ensures var t := MdTemplate("\n<div>\n", "\n<: text :>\n", "\n</div>\n");
            var s := Joined(["", t.beginDocument, t.item, t.endDocument], MdMarkers, EndOfLine);
            && SplitMd(s) == Ok(t)
            && LegacySplitMd(s) == Ok(t.(endDocument := ""))
  {
    var t := MdTemplate("\n<div>\n", "\n<: text :>\n", "\n</div>\n");
    SplitMdJoined(t, "");
  }
}
