/** `dosub`: every `<: name :>` placeholder of a template is replaced by the
    value of `name`, scanning left to right as `re.sub` does with the
    pattern `<:\s*(\S*?)\s*:>`.  A name without a value is replaced by
    nothing. */
module Substitution {
  import opened Wrappers
  import opened Text
  import opened Subs

  /** The end of the run of whitespace that starts at `i`. */
  function SkipSpace(s: string, i: nat): (r: nat)
    requires i <= |s|
    ensures i <= r <= |s|
    ensures forall k :: i <= k < r ==> IsSpace(s[k])
    ensures r == |s| || !IsSpace(s[r])
    decreases |s| - i
  {
    if i < |s| && IsSpace(s[i]) then SkipSpace(s, i + 1) else i
  }

  /** Whether `s` holds the closing `:>` at `i`. */
  predicate CloserAt(s: string, i: nat) {
    i + 2 <= |s| && s[i] == ':' && s[i + 1] == '>'
  }

  /** The end of the lazily matched name that started earlier and has
      reached `j`: the name stops at the first point followed by optional
      whitespace and `:>`, and may only grow over non-space characters. */
  function NameEnd(s: string, j: nat): (r: Option<nat>)
    requires j <= |s|
    ensures r.Some? ==> j <= r.value <= |s| && CloserAt(s, SkipSpace(s, r.value))
    ensures r.Some? ==> forall k :: j <= k < r.value ==> !IsSpace(s[k]) && !CloserAt(s, SkipSpace(s, k))
    decreases |s| - j
  {
    if CloserAt(s, SkipSpace(s, j)) then Some(j)
    else if j < |s| && !IsSpace(s[j]) then NameEnd(s, j + 1)
    else None
  }

  /** A placeholder at the start of a text: the name it holds and how many
      characters it spans. */
  datatype Placeholder = Placeholder(name: string, len: nat)

  /** The placeholder that starts `s`, if any. */
  function Match(s: string): (r: Option<Placeholder>)
    ensures r.Some? ==> 4 <= r.value.len <= |s|
  {
    if |s| >= 2 && s[0] == '<' && s[1] == ':' then
      var q := SkipSpace(s, 2);
      match NameEnd(s, q)
      case None => None
      case Some(j) => Some(Placeholder(s[q..j], SkipSpace(s, j) + 2))
    else None
  }

  /** `str(subs[name])` if the name is known, otherwise nothing. */
  function Lookup(subs: Subst, name: string): string {
    if name in subs then subs[name] else ""
  }

  /** `dosub(text, subs)`. */
  function DoSub(s: string, subs: Subst): string
    decreases |s|
  {
    if s == [] then []
    else
      match Match(s)
      case Some(m) => Lookup(subs, m.name) + DoSub(s[m.len..], subs)
      case None => [s[0]] + DoSub(s[1..], subs)
  }

  /** Whether `s` contains the opening `<:` anywhere. */
  predicate HasOpener(s: string) {
    exists i :: 0 <= i < |s| - 1 && s[i] == '<' && s[i + 1] == ':'
  }

  /** Text without an opening `<:` comes back unchanged. */
  lemma {:induction false} NoPlaceholderUnchanged(s: string, subs: Subst)
    requires !HasOpener(s)
    ensures DoSub(s, subs) == s
    decreases |s|
  {
    if s != [] {
      assert Match(s).None?;
      NoPlaceholderUnchanged(s[1..], subs);
      assert s == [s[0]] + s[1..];
    }
  }

  /** Text without a `<` is copied as it is, whatever follows it. */
  lemma {:induction false} PlainPrefixCopied(a: string, b: string, subs: Subst)
    requires '<' !in a
    ensures DoSub(a + b, subs) == a + DoSub(b, subs)
    decreases |a|
  {
    if a != [] {
      assert (a + b)[0] == a[0];
      assert Match(a + b).None?;
      assert (a + b)[1..] == a[1..] + b;
      PlainPrefixCopied(a[1..], b, subs);
      calc {
        DoSub(a + b, subs);
        [a[0]] + DoSub(a[1..] + b, subs);
        [a[0]] + (a[1..] + DoSub(b, subs));
        ([a[0]] + a[1..]) + DoSub(b, subs);
        { assert [a[0]] + a[1..] == a; }
        a + DoSub(b, subs);
      }
    } else {
      assert a + b == b;
    }
  }

  /** Every character of `s` is whitespace. */
  predicate AllSpace(s: string) {
    forall k :: 0 <= k < |s| ==> IsSpace(s[k])
  }

  /** A name the pattern can capture whole: no whitespace and no `:>`. */
  predicate PlainName(name: string) {
    && (forall k :: 0 <= k < |name| ==> !IsSpace(name[k]))
    && (forall k :: 0 <= k < |name| - 1 ==> !(name[k] == ':' && name[k + 1] == '>'))
  }

  /** From `i` on, the whitespace run reaches exactly `e`. */
  lemma SkipSpaceTo(s: string, i: nat, e: nat)
    requires i <= e <= |s|
    requires forall k :: i <= k < e ==> IsSpace(s[k])
    requires e == |s| || !IsSpace(s[e])
    ensures SkipSpace(s, i) == e
    decreases e - i
  {
    if i < e {
      SkipSpaceTo(s, i + 1, e);
    }
  }

  /** The name of a placeholder reaches exactly to its end. */
  lemma {:induction false} NameEndAt(s: string, j: nat, e: nat)
    requires j <= e <= |s|
    requires forall k :: j <= k < e ==> !IsSpace(s[k]) && !CloserAt(s, k)
    requires CloserAt(s, SkipSpace(s, e))
    ensures NameEnd(s, j) == Some(e)
    decreases e - j
  {
    if j < e {
      SkipSpaceTo(s, j, j);
      NameEndAt(s, j + 1, e);
    }
  }

  /** The text `<: name :>` followed by anything. */
  function Written(ws1: string, name: string, ws2: string, rest: string): string {
    "<:" + ws1 + name + ws2 + ":>" + rest
  }

  /** The characters of a written placeholder, piece by piece. */
  lemma WrittenChars(ws1: string, name: string, ws2: string, rest: string)
    ensures var s, q := Written(ws1, name, ws2, rest), 2 + |ws1|;
            && |s| == q + |name| + |ws2| + 2 + |rest|
            && s[0] == '<' && s[1] == ':'
            && (forall k :: 2 <= k < q ==> s[k] == ws1[k - 2])
            && (forall k :: q <= k < q + |name| ==> s[k] == name[k - q])
            && (forall k :: q + |name| <= k < q + |name| + |ws2| ==> s[k] == ws2[k - q - |name|])
            && s[q + |name| + |ws2|] == ':' && s[q + |name| + |ws2| + 1] == '>'
            && s[q..q + |name|] == name
            && s[q + |name| + |ws2| + 2..] == rest
  {
  }

  /** How `Match` reads its result off the scanning steps. */
  lemma MatchSteps(s: string, q: nat, j: nat)
    requires |s| >= 2 && s[0] == '<' && s[1] == ':'
    requires SkipSpace(s, 2) == q && q <= j <= |s| && NameEnd(s, q) == Some(j)
    ensures Match(s) == Some(Placeholder(s[q..j], SkipSpace(s, j) + 2))
  {
  }

  /** The scanner recognises a written placeholder, name and extent. */
  lemma MatchWritten(ws1: string, name: string, ws2: string, rest: string)
    requires AllSpace(ws1) && AllSpace(ws2) && PlainName(name)
    ensures Match(Written(ws1, name, ws2, rest))
         == Some(Placeholder(name, 2 + |ws1| + |name| + |ws2| + 2))
  {
    if name == [] {
      MatchWrittenEmpty(ws1, ws2, rest);
    } else {
      MatchWrittenNamed(ws1, name, ws2, rest);
    }
  }

  /** An empty name: the whitespace on both sides runs together. */
  lemma MatchWrittenEmpty(ws1: string, ws2: string, rest: string)
    requires AllSpace(ws1) && AllSpace(ws2)
    ensures Match(Written(ws1, [], ws2, rest)) == Some(Placeholder([], 2 + |ws1| + |ws2| + 2))
  {
    var s := Written(ws1, [], ws2, rest);
    WrittenChars(ws1, [], ws2, rest);
    var e := 2 + |ws1| + |ws2|;
    assert forall k :: 2 <= k < e ==> IsSpace(s[k]);
    SkipSpaceTo(s, 2, e);
    SkipSpaceTo(s, e, e);
    assert NameEnd(s, e) == Some(e);
    MatchSteps(s, e, e);
    assert s[e..e] == [];
  }

  /** A non-empty name: it ends where the whitespace before `:>` starts. */
  lemma MatchWrittenNamed(ws1: string, name: string, ws2: string, rest: string)
    requires AllSpace(ws1) && AllSpace(ws2) && PlainName(name) && name != []
    ensures Match(Written(ws1, name, ws2, rest))
         == Some(Placeholder(name, 2 + |ws1| + |name| + |ws2| + 2))
  {
    var s := Written(ws1, name, ws2, rest);
    var q := 2 + |ws1|;
    var j := q + |name|;
    WrittenSkips(ws1, name, ws2, rest);
    WrittenNameEnd(ws1, name, ws2, rest);
    assert |s| >= 2 && s[0] == '<' && s[1] == ':' && s[q..j] == name by {
      WrittenChars(ws1, name, ws2, rest);
    }
    MatchSteps(s, q, j);
  }

  /** The whitespace around a written name is skipped to its end. */
  lemma WrittenSkips(ws1: string, name: string, ws2: string, rest: string)
    requires AllSpace(ws1) && AllSpace(ws2) && PlainName(name) && name != []
    ensures var s, q := Written(ws1, name, ws2, rest), 2 + |ws1|;
            && SkipSpace(s, 2) == q
            && SkipSpace(s, q + |name|) == q + |name| + |ws2|
  {
    SkipBeforeName(ws1, name, ws2, rest);
    SkipAfterName(ws1, name, ws2, rest);
  }

  /** The whitespace before a written name is skipped up to the name. */
  lemma SkipBeforeName(ws1: string, name: string, ws2: string, rest: string)
    requires AllSpace(ws1) && PlainName(name) && name != []
    ensures SkipSpace(Written(ws1, name, ws2, rest), 2) == 2 + |ws1|
  {
    var s := Written(ws1, name, ws2, rest);
    var q := 2 + |ws1|;
    assert s == "<:" + ws1 + (name + ws2 + ":>" + rest);
    forall k | 2 <= k < q
      ensures IsSpace(s[k])
    {
      assert s[k] == ws1[k - 2];
    }
    assert s[q] == name[0];
    SkipSpaceTo(s, 2, q);
  }

  /** The whitespace after a written name is skipped up to `:>`. */
  lemma SkipAfterName(ws1: string, name: string, ws2: string, rest: string)
    requires AllSpace(ws2)
    ensures var s, j := Written(ws1, name, ws2, rest), 2 + |ws1| + |name|;
            SkipSpace(s, j) == j + |ws2|
  {
    var s := Written(ws1, name, ws2, rest);
    var j := 2 + |ws1| + |name|;
    assert s == ("<:" + ws1 + name) + ws2 + (":>" + rest);
    forall k | j <= k < j + |ws2|
      ensures IsSpace(s[k])
    {
      assert s[k] == ws2[k - j];
    }
    assert s[j + |ws2|] == ':';
    SkipSpaceTo(s, j, j + |ws2|);
  }

  /** Where the name, the whitespace after it and `:>` sit. */
  lemma WrittenPieces(ws1: string, name: string, ws2: string, rest: string)
    ensures var s, q := Written(ws1, name, ws2, rest), 2 + |ws1|;
            var j := q + |name|;
            var e := j + |ws2|;
            && e + 2 <= |s|
            && s[q..j] == name && s[j..e] == ws2 && s[e] == ':' && s[e + 1] == '>'
  {
    var s := Written(ws1, name, ws2, rest);
    assert s == ("<:" + ws1) + name + ws2 + ":>" + rest;
  }

  /** A written name ends where it was written. */
  lemma WrittenNameEnd(ws1: string, name: string, ws2: string, rest: string)
    requires AllSpace(ws1) && AllSpace(ws2) && PlainName(name) && name != []
    ensures var s, q := Written(ws1, name, ws2, rest), 2 + |ws1|;
            NameEnd(s, q) == Some(q + |name|)
  {
    var s := Written(ws1, name, ws2, rest);
    var q := 2 + |ws1|;
    var j := q + |name|;
    var e := j + |ws2|;
    WrittenPieces(ws1, name, ws2, rest);
    SkipAfterName(ws1, name, ws2, rest);
    NameWritten(s, q, j, name, ws2);
    NameEndAt(s, q, j);
  }

  /** Inside a plain name neither whitespace nor `:>` begins. */
  lemma NameWritten(s: string, q: nat, j: nat, name: string, ws2: string)
    requires PlainName(name) && AllSpace(ws2) && name != [] && q + |name| == j && j + |ws2| + 2 <= |s|
    requires s[q..j] == name && s[j..j + |ws2|] == ws2 && s[j + |ws2|] == ':'
    ensures forall k :: q <= k < j ==> !IsSpace(s[k]) && !CloserAt(s, k)
  {
    forall k | q <= k < j
      ensures !IsSpace(s[k]) && !CloserAt(s, k)
    {
      assert s[k] == name[k - q];
      if k + 1 < j {
        assert s[k + 1] == name[k + 1 - q];
      } else if ws2 != [] {
        assert s[k + 1] == ws2[0];
      } else {
        assert s[k + 1] == ':';
      }
    }
  }

  /** `<: name :>` with any whitespace around the name is replaced by the
      name's value, and the text after it is substituted in turn. */
  lemma PlaceholderReplaced(ws1: string, name: string, ws2: string, rest: string, subs: Subst)
    requires AllSpace(ws1) && AllSpace(ws2) && PlainName(name)
    ensures DoSub(Written(ws1, name, ws2, rest), subs) == Lookup(subs, name) + DoSub(rest, subs)
  {
    MatchWritten(ws1, name, ws2, rest);
    WrittenChars(ws1, name, ws2, rest);
  }
}
