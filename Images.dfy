/** Markdown image references inside entry text, `![caption](path)`, and
    their rewriting into the LaTeX macros `\imagecap{path}{caption}` and
    `\image{path}`. */
module Images {
  import opened Wrappers

  /** The first index at or after `from` holding `c`. */
  function IndexOf(s: string, from: nat, c: char): (r: Option<nat>)
    requires from <= |s|
    ensures r.Some? ==> from <= r.value < |s| && s[r.value] == c
    ensures r.Some? ==> forall k :: from <= k < r.value ==> s[k] != c
    ensures r.None? ==> forall k :: from <= k < |s| ==> s[k] != c
    decreases |s| - from
  {
    if from == |s| then None
    else if s[from] == c then Some(from)
    else IndexOf(s, from + 1, c)
  }

  /** A match of the image pattern: `s[start..end]` is the reference. */
  datatype ImageMatch = ImageMatch(start: nat, end: nat, caption: string, path: string)

  /** The match of the image pattern `!\[([^\]]*)\]\(([^\)]*)\)` that starts
      at `p`, if there is one.  The caption cannot contain `]` and the path
      cannot contain `)`, so the caption ends at the first `]` and the path
      at the first `)` after it; no other choice can match. */
  function MatchAt(s: string, p: nat): (r: Option<ImageMatch>)
    requires p <= |s|
    ensures r.Some? ==> p == r.value.start < r.value.end <= |s|
  {
    if p + 1 < |s| && s[p] == '!' && s[p + 1] == '[' then
      match IndexOf(s, p + 2, ']')
      case None => None
      case Some(c) =>
        if c + 1 < |s| && s[c + 1] == '(' then
          match IndexOf(s, c + 2, ')')
          case None => None
          case Some(d) =>
            Some(ImageMatch(p, d + 1, s[p + 2..c], s[c + 2..d]))
        else None
    else None
  }

  /** A match is the written reference `![caption](path)`, with no `]` in
      the caption and no `)` in the path. */
  lemma MatchIsReference(s: string, p: nat)
    requires p <= |s| && MatchAt(s, p).Some?
    ensures Reference(s, MatchAt(s, p).value)
    ensures ')' !in MatchAt(s, p).value.path
  {
    var c := IndexOf(s, p + 2, ']').value;
    var d := IndexOf(s, c + 2, ')').value;
    MatchText(s, p, c, d);
  }

  /** The text of a match, cut at its brackets. */
  lemma MatchText(s: string, p: nat, c: nat, d: nat)
    requires p + 2 <= c && c + 2 <= d < |s|
    requires s[p] == '!' && s[p + 1] == '[' && s[c] == ']' && s[c + 1] == '(' && s[d] == ')'
    ensures s[p..d + 1] == "![" + s[p + 2..c] + "](" + s[c + 2..d] + ")"
  {
    assert s[p..p + 2] == "![";
    assert s[c..c + 2] == "](";
    assert s[d..d + 1] == ")";
    assert s[p..d + 1] == s[p..p + 2] + s[p + 2..c] + s[c..c + 2] + s[c + 2..d] + s[d..d + 1];
  }

  /** The first `c` at or after `from` is at `at` when there is none
      between them. */
  lemma IndexOfAt(s: string, from: nat, c: char, at: nat)
    requires from <= at < |s| && s[at] == c
    requires forall k :: from <= k < at ==> s[k] != c
    ensures IndexOf(s, from, c) == Some(at)
  {
  }

  /** Where the pieces of a written reference sit. */
  lemma ReferenceLayout(pre: string, caption: string, path: string, post: string)
    ensures var s := pre + "![" + caption + "](" + path + ")" + post;
            var p := |pre|;
            var c := p + 2 + |caption|;
            var d := c + 2 + |path|;
            && d < |s| && s[p] == '!' && s[p + 1] == '['
            && s[c] == ']' && s[c + 1] == '(' && s[d] == ')'
            && s[p + 2..c] == caption && s[c + 2..d] == path
  {
  }

  /** The caption of a written reference ends at its `]`. */
  lemma CaptionEnds(pre: string, caption: string, path: string, post: string)
    requires ']' !in caption
    ensures var s := pre + "![" + caption + "](" + path + ")" + post;
            var p := |pre|;
            IndexOf(s, p + 2, ']') == Some(p + 2 + |caption|)
  {
    var s := pre + "![" + caption + "](" + path + ")" + post;
    var p := |pre|;
    var c := p + 2 + |caption|;
    ReferenceLayout(pre, caption, path, post);
    forall k | p + 2 <= k < c
      ensures s[k] != ']'
    {
      assert s[k] == s[p + 2..c][k - p - 2];
    }
    IndexOfAt(s, p + 2, ']', c);
  }

  /** The path of a written reference ends at its `)`. */
  lemma PathEnds(pre: string, caption: string, path: string, post: string)
    requires ')' !in path
    ensures var s := pre + "![" + caption + "](" + path + ")" + post;
            var c := |pre| + 2 + |caption|;
            IndexOf(s, c + 2, ')') == Some(c + 2 + |path|)
  {
    var s := pre + "![" + caption + "](" + path + ")" + post;
    var c := |pre| + 2 + |caption|;
    var d := c + 2 + |path|;
    ReferenceLayout(pre, caption, path, post);
    forall k | c + 2 <= k < d
      ensures s[k] != ')'
    {
      assert s[k] == s[c + 2..d][k - c - 2];
    }
    IndexOfAt(s, c + 2, ')', d);
  }

  /** Any text of the reference shape is matched where it starts. */
  lemma MatchAtReference(pre: string, caption: string, path: string, post: string)
    requires ']' !in caption && ')' !in path
    ensures MatchAt(pre + "![" + caption + "](" + path + ")" + post, |pre|)
         == Some(ImageMatch(|pre|, |pre| + |caption| + |path| + 5, caption, path))
  {
    ReferenceLayout(pre, caption, path, post);
    CaptionEnds(pre, caption, path, post);
    PathEnds(pre, caption, path, post);
  }

  /** The leftmost match at or after `from`, as `re.search` finds it. */
  function FindImage(s: string, from: nat): (r: Option<ImageMatch>)
    requires from <= |s|
    ensures r.Some? ==> from <= r.value.start <= |s| && MatchAt(s, r.value.start) == r
    ensures r.Some? ==> forall p :: from <= p < r.value.start ==> MatchAt(s, p).None?
    ensures r.None? ==> forall p :: from <= p <= |s| ==> MatchAt(s, p).None?
    decreases |s| - from
  {
    if MatchAt(s, from).Some? then MatchAt(s, from)
    else if from == |s| then None
    else FindImage(s, from + 1)
  }

  /** The LaTeX that replaces one reference: `\imagecap{path}{caption}`
      when there is a caption, `\image{path}` when it is empty.  It adds
      no `!` of its own. */
  function Directive(caption: string, path: string): (r: string)
    ensures '!' !in caption && '!' !in path ==> '!' !in r
  {
    NoBangPieces(caption, path);
    if caption != [] then "\\imagecap{" + path + "}{" + caption + "}" else "\\image{" + path + "}"
  }

  /** A directive holds only the `]`s of its path. */
  lemma DirectiveCount(caption: string, path: string)
    requires ']' !in caption
    ensures Count(Directive(caption, path)) == Count(path)
  {
    if caption != [] {
      CaptionedCount(path, caption);
    } else {
      UncaptionedCount(path);
    }
  }

  /** The fixed text of the directives holds no `!`. */
  lemma NoBangPieces(caption: string, path: string)
    ensures '!' !in caption && '!' !in path ==> '!' !in "\\imagecap{" + path + "}{" + caption + "}"
    ensures '!' !in caption && '!' !in path ==> '!' !in "\\image{" + path + "}"
  {
    if '!' in caption || '!' in path {
      return;
    }
    var a, b, c, d := "\\imagecap{", "}{", "}", "\\image{";
    assert '!' !in a && '!' !in b && '!' !in c && '!' !in d;
    NoBangJoin(a, path);
    NoBangJoin(a + path, b);
    NoBangJoin(a + path + b, caption);
    NoBangJoin(a + path + b + caption, c);
    NoBangJoin(d, path);
    NoBangJoin(d + path, c);
  }

  lemma NoBangJoin(a: string, b: string)
    requires '!' !in a && '!' !in b
    ensures '!' !in a + b
  {
  }

  lemma CaptionedCount(path: string, caption: string)
    requires ']' !in caption
    ensures Count("\\imagecap{" + path + "}{" + caption + "}") == Count(path)
  {
    DirectiveLiteralsClear();
    assert Count(caption) == 0 by {
      NoBracket(caption);
    }
    CountFive("\\imagecap{", path, "}{", caption, "}");
  }

  lemma UncaptionedCount(path: string)
    ensures Count("\\image{" + path + "}") == Count(path)
  {
    DirectiveLiteralsClear();
    CountConcat("\\image{", path);
    CountConcat("\\image{" + path, "}");
  }

  /** The fixed text of the directives holds no `]`. */
  lemma DirectiveLiteralsClear()
    ensures Count("\\imagecap{") == 0 && Count("}{") == 0 && Count("}") == 0 && Count("\\image{") == 0
  {
    NoBracket("\\imagecap{");
    NoBracket("}{");
    NoBracket("}");
    NoBracket("\\image{");
  }

  function Count(s: string): nat {
    multiset(s)[']']
  }

  /** Text without a `]` counts none. */
  lemma NoBracket(s: string)
    requires ']' !in s
    ensures Count(s) == 0
  {
  }

  lemma CountConcat(a: string, b: string)
    ensures Count(a + b) == Count(a) + Count(b)
  {
    assert multiset(a + b) == multiset(a) + multiset(b);
  }

  /** A reference holds exactly one `]` outside its path. */
  lemma ReferenceCount(caption: string, path: string)
    requires ']' !in caption
    ensures Count("![" + caption + "](" + path + ")") == 1 + Count(path)
  {
    var x: string, y: string, z: string := "![", "](", ")";
    assert ']' !in multiset(caption);
    assert Count(x) == 0 && Count(z) == 0;
    assert Count(y) == 1 by {
      assert y == "]" + "(";
      CountConcat("]", "(");
    }
    CountFive(x, caption, y, path, z);
  }

  /** `Count` of five pieces put together. */
  lemma CountFive(a: string, b: string, c: string, d: string, e: string)
    ensures Count(a + b + c + d + e) == Count(a) + Count(b) + Count(c) + Count(d) + Count(e)
  {
    CountConcat(a, b);
    CountConcat(a + b, c);
    CountConcat(a + b + c, d);
    CountConcat(a + b + c + d, e);
  }

  /** `s[m.start..m.end]` is the reference `m` stands for. */
  predicate Reference(s: string, m: ImageMatch) {
    && m.start <= m.end <= |s|
    && s[m.start..m.end] == "![" + m.caption + "](" + m.path + ")"
    && ']' !in m.caption
  }

  /** The text with reference `m` replaced by its directive. */
  function RewriteFirst(s: string, m: ImageMatch): (r: string)
    requires Reference(s, m)
    ensures |r| == |s| - (m.end - m.start) + |Directive(m.caption, m.path)|
  {
    s[..m.start] + Directive(m.caption, m.path) + s[m.end..]
  }

  /** Replacing a reference removes exactly one `]`. */
  lemma RewriteFirstCount(s: string, m: ImageMatch)
    requires Reference(s, m)
    ensures Count(RewriteFirst(s, m)) + 1 == Count(s)
  {
    var pre, post := s[..m.start], s[m.end..];
    assert s == pre + s[m.start..m.end] + post;
    ReferenceCount(m.caption, m.path);
    DirectiveCount(m.caption, m.path);
    CountConcat(pre, s[m.start..m.end]);
    CountConcat(pre + s[m.start..m.end], post);
    CountConcat(pre, Directive(m.caption, m.path));
    CountConcat(pre + Directive(m.caption, m.path), post);
  }

  /** The text after every reference has been rewritten, leftmost first,
      each rewrite followed by a fresh search of the rewritten text. */
  function ImageRewrite(s: string): (r: string)
    ensures FindImage(r, 0).None?
    decreases Count(s)
  {
    match FindImage(s, 0)
    case None => s
    case Some(m) =>
      MatchIsReference(s, m.start);
      RewriteFirstCount(s, m);
      ImageRewrite(RewriteFirst(s, m))
  }

  /** `img2tex`: rewrite, search again, until no reference is left. */
  method Img2Tex(text: string) returns (r: string)
    ensures r == ImageRewrite(text)
    ensures FindImage(r, 0).None?
  {
    r := text;
    var images := FindImage(r, 0);
    while images.Some?
      invariant images == FindImage(r, 0)
      invariant ImageRewrite(r) == ImageRewrite(text)
      decreases Count(r)
    {
      MatchIsReference(r, images.value.start);
      RewriteFirstCount(r, images.value);
      r := RewriteFirst(r, images.value);
      images := FindImage(r, 0);
    }
  }

  /** Text without a reference is left alone, so rewriting twice is the
      same as rewriting once. */
  lemma RewriteIdempotent(s: string)
    ensures ImageRewrite(ImageRewrite(s)) == ImageRewrite(s)
  {
  }

  /** A text without `!` holds no reference. */
  lemma NoBangNoImage(s: string)
    requires '!' !in s
    ensures ImageRewrite(s) == s
  {
    assert forall p :: 0 <= p <= |s| ==> MatchAt(s, p).None?;
  }

  /** A match moved `n` characters to the right. */
  function Shifted(r: Option<ImageMatch>, n: nat): Option<ImageMatch> {
    match r
    case None => None
    case Some(m) => Some(ImageMatch(m.start + n, m.end + n, m.caption, m.path))
  }

  /** Searching `a + t` from inside `t` finds what searching `t` finds,
      `|a|` further on. */
  lemma {:induction false} IndexOfShift(a: string, t: string, q: nat, c: char)
    requires q <= |t|
    ensures IndexOf(a + t, |a| + q, c) == (if IndexOf(t, q, c).Some? then Some(|a| + IndexOf(t, q, c).value) else None)
    decreases |t| - q
  {
    if q < |t| {
      assert (a + t)[|a| + q] == t[q];
      IndexOfShift(a, t, q + 1, c);
    }
  }

  /** A slice of `a + t` inside `t` is the slice of `t`. */
  lemma SliceShift(a: string, t: string, x: nat, y: nat)
    requires x <= y <= |t|
    ensures (a + t)[|a| + x..|a| + y] == t[x..y]
  {
    assert forall k :: 0 <= k < y - x ==> (a + t)[|a| + x..|a| + y][k] == t[x..y][k];
  }

  /** The match at `p` once its brackets are found. */
  lemma MatchAtIs(s: string, p: nat, c: nat, d: nat)
    requires p + 1 < |s| && s[p] == '!' && s[p + 1] == '['
    requires IndexOf(s, p + 2, ']') == Some(c) && c + 1 < |s| && s[c + 1] == '('
    requires IndexOf(s, c + 2, ')') == Some(d)
    ensures MatchAt(s, p) == Some(ImageMatch(p, d + 1, s[p + 2..c], s[c + 2..d]))
  {
  }

  /** A reference of `t` is a reference of `a + t`, `|a|` further on. */
  lemma MatchAtShift(a: string, t: string, q: nat)
    requires q <= |t|
    ensures MatchAt(a + t, |a| + q) == Shifted(MatchAt(t, q), |a|)
  {
    var s := a + t;
    var p := |a| + q;
    if q + 1 < |t| && t[q] == '!' && t[q + 1] == '[' {
      OpenedShift(a, t, q);
    } else {
      assert !(p + 1 < |s| && s[p] == '!' && s[p + 1] == '[');
      assert MatchAt(t, q).None? && MatchAt(s, p).None?;
    }
  }

  /** `MatchAtShift` once `![` is found. */
  lemma OpenedShift(a: string, t: string, q: nat)
    requires q + 1 < |t| && t[q] == '!' && t[q + 1] == '['
    ensures MatchAt(a + t, |a| + q) == Shifted(MatchAt(t, q), |a|)
  {
    var s := a + t;
    var p := |a| + q;
    assert s[p] == '!' && s[p + 1] == '[';
    IndexOfShift(a, t, q + 2, ']');
    match IndexOf(t, q + 2, ']')
    case None =>
      assert MatchAt(t, q).None? && MatchAt(s, p).None?;
    case Some(c) =>
      ClosedShift(a, t, q, c);
  }

  /** `MatchAtShift` once `![` and the caption's `]` are found. */
  lemma ClosedShift(a: string, t: string, q: nat, c: nat)
    requires q + 1 < |t| && t[q] == '!' && t[q + 1] == '['
    requires IndexOf(t, q + 2, ']') == Some(c)
    ensures MatchAt(a + t, |a| + q) == Shifted(MatchAt(t, q), |a|)
  {
    var s := a + t;
    var p := |a| + q;
    assert s[p] == '!' && s[p + 1] == '[';
    IndexOfShift(a, t, q + 2, ']');
    assert IndexOf(s, p + 2, ']') == Some(|a| + c);
    if c + 1 < |t| && t[c + 1] == '(' {
      assert s[|a| + c + 1] == '(';
      IndexOfShift(a, t, c + 2, ')');
      match IndexOf(t, c + 2, ')')
      case None =>
        assert MatchAt(t, q).None? && MatchAt(s, p).None?;
      case Some(d) =>
        FoundShift(a, t, q, c, d);
    } else {
      assert !(|a| + c + 1 < |s| && s[|a| + c + 1] == '(');
      assert MatchAt(t, q).None? && MatchAt(s, p).None?;
    }
  }

  /** A whole reference of `t` is the same reference of `a + t`. */
  lemma FoundShift(a: string, t: string, q: nat, c: nat, d: nat)
    requires q + 1 < |t| && t[q] == '!' && t[q + 1] == '['
    requires IndexOf(t, q + 2, ']') == Some(c) && c + 1 < |t| && t[c + 1] == '('
    requires IndexOf(t, c + 2, ')') == Some(d)
    ensures MatchAt(a + t, |a| + q) == Shifted(MatchAt(t, q), |a|)
  {
    var s := a + t;
    var p := |a| + q;
    BracketsShift(a, t, q, c, d);
    MatchAtIs(t, q, c, d);
    MatchAtIs(s, p, |a| + c, |a| + d);
    ShiftedFields(a, t, q, c, d);
  }

  /** The parts of a reference of `t`, moved along behind `a`. */
  lemma ShiftedFields(a: string, t: string, q: nat, c: nat, d: nat)
    requires q + 2 <= c && c + 2 <= d < |t|
    ensures Shifted(Some(ImageMatch(q, d + 1, t[q + 2..c], t[c + 2..d])), |a|)
         == Some(ImageMatch(|a| + q, |a| + d + 1, (a + t)[|a| + q + 2..|a| + c], (a + t)[|a| + c + 2..|a| + d]))
  {
    SliceShift(a, t, q + 2, c);
    SliceShift(a, t, c + 2, d);
  }

  /** The brackets of a reference of `t`, found in `a + t`. */
  lemma BracketsShift(a: string, t: string, q: nat, c: nat, d: nat)
    requires q + 1 < |t| && t[q] == '!' && t[q + 1] == '['
    requires IndexOf(t, q + 2, ']') == Some(c) && c + 1 < |t| && t[c + 1] == '('
    requires IndexOf(t, c + 2, ')') == Some(d)
    ensures var s, p := a + t, |a| + q;
            && p + 1 < |s| && s[p] == '!' && s[p + 1] == '['
            && IndexOf(s, p + 2, ']') == Some(|a| + c) && |a| + c + 1 < |s| && s[|a| + c + 1] == '('
            && IndexOf(s, |a| + c + 2, ')') == Some(|a| + d)
            && s[p + 2..|a| + c] == t[q + 2..c] && s[|a| + c + 2..|a| + d] == t[c + 2..d]
  {
    var s := a + t;
    IndexOfShift(a, t, q + 2, ']');
    IndexOfShift(a, t, c + 2, ')');
    assert s[|a| + q] == '!' && s[|a| + q + 1] == '[' && s[|a| + c + 1] == '(';
    SliceShift(a, t, q + 2, c);
    SliceShift(a, t, c + 2, d);
  }

  /** No reference starts inside a text without `!`. */
  lemma MatchAtBefore(a: string, t: string, p: nat)
    requires '!' !in a && p < |a|
    ensures MatchAt(a + t, p).None?
  {
    assert (a + t)[p] == a[p];
  }

  /** The leftmost search finds a reference at `p` when none starts
      before it. */
  lemma FindImageAt(s: string, p: nat)
    requires p <= |s| && MatchAt(s, p).Some?
    requires forall q :: 0 <= q < p ==> MatchAt(s, q).None?
    ensures FindImage(s, 0) == MatchAt(s, p)
  {
    var r := FindImage(s, 0);
    assert r.Some?;
    assert MatchAt(s, r.value.start).Some?;
    assert r.value.start == p;
  }

  /** Behind a text without `!`, the leftmost reference is the leftmost
      reference of the rest, moved along. */
  lemma FindImageShift(a: string, t: string)
    requires '!' !in a
    ensures FindImage(a + t, 0) == Shifted(FindImage(t, 0), |a|)
  {
    match FindImage(t, 0)
    case None =>
      NoImageShift(a, t);
    case Some(m) =>
      ImageShift(a, t, m);
  }

  /** Behind a text without `!`, a text without references gives none. */
  lemma NoImageShift(a: string, t: string)
    requires '!' !in a && FindImage(t, 0).None?
    ensures FindImage(a + t, 0).None?
  {
    NoneBefore(a, t, |t|);
    assert MatchAt(t, |t|).None?;
    NoMatchFound(a + t);
  }

  /** The search finds nothing when no position matches. */
  lemma NoMatchFound(s: string)
    requires forall p :: 0 <= p < |s| ==> MatchAt(s, p).None?
    requires MatchAt(s, |s|).None?
    ensures FindImage(s, 0).None?
  {
  }

  /** Behind a text without `!`, the leftmost reference of the rest is the
      leftmost reference of the whole, moved along. */
  lemma ImageShift(a: string, t: string, m: ImageMatch)
    requires '!' !in a && FindImage(t, 0) == Some(m)
    ensures FindImage(a + t, 0) == Shifted(Some(m), |a|)
  {
    NoneBefore(a, t, m.start);
    MatchAtShift(a, t, m.start);
    FindImageAt(a + t, |a| + m.start);
  }

  /** No reference of `a + t` starts before `|a| + n` when `a` holds no
      `!` and no reference of `t` starts before `n`. */
  lemma NoneBefore(a: string, t: string, n: nat)
    requires '!' !in a && n <= |t|
    requires forall p :: 0 <= p < n ==> MatchAt(t, p).None?
    ensures forall p :: 0 <= p < |a| + n ==> MatchAt(a + t, p).None?
    ensures n == |t| ==> MatchAt(a + t, |a| + n) == Shifted(MatchAt(t, n), |a|)
  {
    forall p | 0 <= p < |a| + n
      ensures MatchAt(a + t, p).None?
    {
      if p < |a| {
        MatchAtBefore(a, t, p);
      } else {
        MatchAtShift(a, t, p - |a|);
      }
    }
    MatchAtShift(a, t, n);
  }

  /** Behind text `a`, a reference of `t` is the same reference moved
      along, and rewriting it rewrites `t` only. */
  lemma RewriteFirstShift(a: string, t: string, m: ImageMatch)
    requires Reference(t, m)
    ensures Reference(a + t, Shifted(Some(m), |a|).value)
    ensures RewriteFirst(a + t, Shifted(Some(m), |a|).value) == a + RewriteFirst(t, m)
  {
    var n := Shifted(Some(m), |a|).value;
    SliceShift(a, t, m.start, m.end);
    assert (a + t)[n.start..n.end] == t[m.start..m.end];
    var x := Directive(m.caption, m.path);
    assert n.start == m.start + |a| && n.end == m.end + |a| && n.caption == m.caption && n.path == m.path;
    RewriteFirstIs(t, m);
    RewriteFirstIs(a + t, n);
    var u := Splice(a + t, m.start + |a|, m.end + |a|, x);
    assert RewriteFirst(a + t, n) == u;
    SpliceShift(a, t, m.start, m.end, x);
    assert u == a + Splice(t, m.start, m.end, x);
  }

  /** `s` with `s[i..j]` replaced by `x`. */
  function Splice(s: string, i: nat, j: nat, x: string): (r: string)
    requires i <= j <= |s|
    ensures |r| == |s| - (j - i) + |x|
  {
    s[..i] + x + s[j..]
  }

  /** The rewritten text: the reference replaced by its directive. */
  lemma RewriteFirstIs(s: string, m: ImageMatch)
    requires Reference(s, m)
    ensures RewriteFirst(s, m) == Splice(s, m.start, m.end, Directive(m.caption, m.path))
  {
  }

  /** Splicing into `a + t` behind `a` is splicing into `t`. */
  lemma SpliceShift(a: string, t: string, i: nat, j: nat, x: string)
    requires i <= j <= |t|
    ensures Splice(a + t, i + |a|, j + |a|, x) == a + Splice(t, i, j, x)
  {
    assert (a + t)[..i + |a|] == a + t[..i];
    assert (a + t)[j + |a|..] == t[j..];
  }

  /** A text without `!` in front of the rest is left alone: only the
      rest is rewritten. */
  lemma {:induction false} RewriteBehind(a: string, t: string)
    requires '!' !in a
    ensures ImageRewrite(a + t) == a + ImageRewrite(t)
    decreases Count(t)
  {
    FindImageShift(a, t);
    match FindImage(t, 0)
    case None =>
    case Some(m) =>
      MatchIsReference(t, m.start);
      RewriteFirstShift(a, t, m);
      RewriteFirstCount(t, m);
      RewriteBehind(a, RewriteFirst(t, m));
  }

  /** A reference behind text without `!` is the leftmost one. */
  lemma FirstReference(pre: string, caption: string, path: string, post: string)
    requires '!' !in pre && ']' !in caption && ')' !in path
    ensures var s := pre + "![" + caption + "](" + path + ")" + post;
            var m := ImageMatch(|pre|, |pre| + |caption| + |path| + 5, caption, path);
            && FindImage(s, 0) == Some(m) && Reference(s, m)
            && s[..m.start] == pre && s[m.end..] == post
  {
    FirstReferenceFound(pre, caption, path, post);
    ReferenceParts(pre, caption, path, post);
  }

  /** The search finds a written reference behind text without `!`. */
  lemma FirstReferenceFound(pre: string, caption: string, path: string, post: string)
    requires '!' !in pre && ']' !in caption && ')' !in path
    ensures FindImage(pre + "![" + caption + "](" + path + ")" + post, 0)
         == Some(ImageMatch(|pre|, |pre| + |caption| + |path| + 5, caption, path))
  {
    var s := pre + "![" + caption + "](" + path + ")" + post;
    MatchAtReference(pre, caption, path, post);
    forall p | 0 <= p < |pre|
      ensures MatchAt(s, p).None?
    {
      assert s == pre + ("![" + caption + "](" + path + ")" + post);
      MatchAtBefore(pre, "![" + caption + "](" + path + ")" + post, p);
    }
    FindImageAt(s, |pre|);
  }

  /** A written reference, with the text before and after it. */
  lemma ReferenceParts(pre: string, caption: string, path: string, post: string)
    requires ']' !in caption
    ensures var s := pre + "![" + caption + "](" + path + ")" + post;
            var m := ImageMatch(|pre|, |pre| + |caption| + |path| + 5, caption, path);
            && Reference(s, m) && s[..m.start] == pre && s[m.end..] == post
  {
    var s := pre + "![" + caption + "](" + path + ")" + post;
    var x := "![" + caption + "](" + path + ")";
    assert s == pre + x + post;
    assert |x| == |caption| + |path| + 5;
    assert s[|pre|..|pre| + |x|] == x;
    assert s[..|pre|] == pre;
    assert s[|pre| + |x|..] == post;
  }


  /** `img2tex` on a text with one reference in front of the rest: the
      text before it is kept, the reference becomes `\imagecap{path}{caption}`
      (`\image{path}` without a caption), and the rest is rewritten in
      turn.  Neither the text before it nor the directive may hold a `!`,
      which could start a new reference with what follows. */
  lemma RewriteReference(pre: string, caption: string, path: string, post: string)
    requires '!' !in pre && '!' !in caption && '!' !in path
    requires ']' !in caption && ')' !in path
    ensures ImageRewrite(pre + "![" + caption + "](" + path + ")" + post)
         == pre + Directive(caption, path) + ImageRewrite(post)
  {
    var s := pre + "![" + caption + "](" + path + ")" + post;
    var m := ImageMatch(|pre|, |pre| + |caption| + |path| + 5, caption, path);
    FirstReference(pre, caption, path, post);
    RewriteFirstIs(s, m);
    assert RewriteFirst(s, m) == pre + Directive(caption, path) + post;
    RewriteBehind(pre + Directive(caption, path), post);
  }
}
