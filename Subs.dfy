/** The substitution dictionaries the generators fill in (`dsubs` for the
    LaTeX templates, `dsubsmd` for the Markdown ones), as maps from
    placeholder names to text. */
module Subs {
  import opened Text

  type Subst = map<string, string>

  /** `prefix + str(n + 1)`: the placeholder of item `n`, counted from 0. */
  function SubKey(prefix: string, n: nat): string {
    prefix + NatToString(n + 1)
  }

  /** Different items have different placeholders. */
  lemma SubKeyInjective(prefix: string, m: nat, n: nat)
    ensures SubKey(prefix, m) == SubKey(prefix, n) ==> m == n
  {
    if SubKey(prefix, m) == SubKey(prefix, n) {
      assert SubKey(prefix, m)[|prefix|..] == NatToString(m + 1);
      assert SubKey(prefix, n)[|prefix|..] == NatToString(n + 1);
      NatToStringInjective(m + 1, n + 1);
    }
  }

  /** Two different prefixes of the same length never share a placeholder. */
  lemma SubKeysDisjoint(p: string, q: string, m: nat, n: nat)
    requires |p| == |q| && p != q
    ensures SubKey(p, m) != SubKey(q, n)
  {
    assert SubKey(p, m)[..|p|] == p;
    assert SubKey(q, n)[..|q|] == q;
  }

  /** `d` after `d[prefix + str(n + 1)] = codes[n]` for each `n` in turn. */
  function Published(d: Subst, prefix: string, codes: seq<string>): Subst {
    if codes == [] then d
    else Published(d, prefix, codes[..|codes| - 1])[SubKey(prefix, |codes| - 1) := codes[|codes| - 1]]
  }

  /** Whether `k` is the placeholder of one of the first `n` items. */
  predicate IsItemKey(prefix: string, k: string, n: nat) {
    exists i :: 0 <= i < n && k == SubKey(prefix, i)
  }

  /** Publishing stores every code under its own placeholder and leaves
      every other entry alone. */
  lemma PublishedMeans(d: Subst, prefix: string, codes: seq<string>)
    ensures forall n :: 0 <= n < |codes| ==>
              SubKey(prefix, n) in Published(d, prefix, codes) && Published(d, prefix, codes)[SubKey(prefix, n)] == codes[n]
    ensures forall k :: k in d && !IsItemKey(prefix, k, |codes|) ==>
              k in Published(d, prefix, codes) && Published(d, prefix, codes)[k] == d[k]
    ensures forall k :: k in Published(d, prefix, codes) ==> k in d || IsItemKey(prefix, k, |codes|)
  {
    PublishedStores(d, prefix, codes);
    PublishedKeeps(d, prefix, codes);
    PublishedOnly(d, prefix, codes);
  }

  /** Every code is stored under its own placeholder. */
  lemma {:induction false} PublishedStores(d: Subst, prefix: string, codes: seq<string>)
    ensures forall n :: 0 <= n < |codes| ==>
              SubKey(prefix, n) in Published(d, prefix, codes) && Published(d, prefix, codes)[SubKey(prefix, n)] == codes[n]
  {
    if codes != [] {
      var init := codes[..|codes| - 1];
      var last := |codes| - 1;
      PublishedStores(d, prefix, init);
      forall n | 0 <= n < last
        ensures SubKey(prefix, n) != SubKey(prefix, last)
      {
        SubKeyInjective(prefix, n, last);
      }
    }
  }

  /** Every other entry is left alone. */
  lemma {:induction false} PublishedKeeps(d: Subst, prefix: string, codes: seq<string>)
    ensures forall k :: k in d && !IsItemKey(prefix, k, |codes|) ==>
              k in Published(d, prefix, codes) && Published(d, prefix, codes)[k] == d[k]
  {
    if codes != [] {
      var init := codes[..|codes| - 1];
      PublishedKeeps(d, prefix, init);
      forall k | k in d && !IsItemKey(prefix, k, |codes|)
        ensures k in Published(d, prefix, codes) && Published(d, prefix, codes)[k] == d[k]
      {
        assert forall i :: 0 <= i < |init| ==> k != SubKey(prefix, i) by {
          assert forall i :: 0 <= i < |codes| ==> k != SubKey(prefix, i);
        }
      }
    }
  }

  /** No other entry is added. */
  lemma {:induction false} PublishedOnly(d: Subst, prefix: string, codes: seq<string>)
    ensures forall k :: k in Published(d, prefix, codes) ==> k in d || IsItemKey(prefix, k, |codes|)
  {
    if codes != [] {
      var init := codes[..|codes| - 1];
      var last := |codes| - 1;
      PublishedOnly(d, prefix, init);
      forall k | k in Published(d, prefix, codes)
        ensures k in d || IsItemKey(prefix, k, |codes|)
      {
        if k != SubKey(prefix, last) && k !in d {
          assert IsItemKey(prefix, k, |init|);
          var i :| 0 <= i < |init| && k == SubKey(prefix, i);
        }
      }
    }
  }

  /** The publishing loop. */
  method Publish(d: Subst, prefix: string, codes: seq<string>) returns (r: Subst)
    ensures r == Published(d, prefix, codes)
  {
    r := d;
    var n := 0;
    while n < |codes|
      invariant 0 <= n <= |codes|
      invariant r == Published(d, prefix, codes[..n])
    {
      assert codes[..n + 1][..n] == codes[..n];
      r := r[SubKey(prefix, n) := codes[n]];
      n := n + 1;
    }
    assert codes[..n] == codes;
  }

  /** `d.setdefault(key, '')` followed by `d[key] += s`. */
  function Appended(d: Subst, key: string, s: string): (r: Subst)
    ensures key in r && r[key] == (if key in d then d[key] else "") + s
    ensures forall k :: k in d && k != key ==> k in r && r[k] == d[k]
    ensures r.Keys == d.Keys + {key}
  {
    d[key := (if key in d then d[key] else "") + s]
  }
}
