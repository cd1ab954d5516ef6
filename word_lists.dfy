/** The word list's removal rule, stated on sequences: the first exact match goes, the
    words after it close up in order. The fixed ten-slot array the controller keeps is
    related to these sequences in module Game. */
module WordLists {

  /** Position of the first `w` in `s`, or `|s|` when there is none. */
  function FirstIndex(s: seq<string>, w: string): (i: nat)
    ensures i <= |s|
    ensures i < |s| ==> s[i] == w
    ensures forall j :: 0 <= j < i ==> s[j] != w
  {
    if s == [] then 0
    else if s[0] == w then 0
    else 1 + FirstIndex(s[1..], w)
  }

  /** Reference definition of removing the first exact match of `w`. */
  function RemoveFirst(s: seq<string>, w: string): seq<string>
  {
    if s == [] then []
    else if s[0] == w then s[1..]
    else [s[0]] + RemoveFirst(s[1..], w)
  }

  /** Removal cuts out exactly the first match and keeps every other word in order;
      with no match the list is unchanged. */
  lemma {:induction false} RemoveFirstCutsFirstMatch(s: seq<string>, w: string)
    ensures var i := FirstIndex(s, w);
            RemoveFirst(s, w) == if i < |s| then s[..i] + s[i + 1..] else s
  {
    if s != [] && s[0] != w {
      RemoveFirstCutsFirstMatch(s[1..], w);
      var i := FirstIndex(s[1..], w);
      if i < |s| - 1 {
        assert s[1..][..i] == s[1..i + 1] && s[1..][i + 1..] == s[i + 2..];
        assert [s[0]] + s[1..i + 1] == s[..i + 1];
      } else {
        assert [s[0]] + s[1..] == s;
      }
    }
  }

  /** The list shrinks by one exactly when the word is present, and exactly one copy of
      the word (and nothing else) disappears. */
  lemma {:induction false} RemoveFirstCounts(s: seq<string>, w: string)
    ensures |RemoveFirst(s, w)| == if w in s then |s| - 1 else |s|
    ensures multiset(RemoveFirst(s, w)) == multiset(s) - multiset{w}
    ensures w !in s ==> RemoveFirst(s, w) == s
  {
    RemoveFirstCutsFirstMatch(s, w);
    var i := FirstIndex(s, w);
    if i < |s| {
      CutCounts(s, i);
    } else {
      assert w !in s by {
        forall j | 0 <= j < |s| ensures s[j] != w { }
      }
      assert multiset(s)[w] == 0;
    }
  }

  lemma CutCounts(s: seq<string>, i: nat)
    requires i < |s|
    ensures |s[..i] + s[i + 1..]| == |s| - 1
    ensures multiset(s[..i] + s[i + 1..]) == multiset(s) - multiset{s[i]}
  {
    assert s == s[..i] + [s[i]] + s[i + 1..];
  }

  /** The slot array after `wordList[j] = wordList[j + 1]` for `i <= j < n - 1`: the
      live words after slot `i` move one place left; every other slot keeps its word
      (slot `n - 1` keeps its old word as a stale copy). */
  function ShiftOut(a: seq<string>, i: nat, n: nat): (r: seq<string>)
    requires i < n <= |a|
    ensures |r| == |a|
    ensures forall k :: 0 <= k < |a| ==> r[k] == if i <= k < n - 1 then a[k + 1] else a[k]
    ensures r[..n - 1] == a[..n][..i] + a[..n][i + 1..]
    ensures r[n..] == a[n..]
  {
    a[..i] + a[i + 1..n] + a[n - 1..]
  }

  /** Shifting out the first match among the first `n` slots leaves exactly the reference
      removal in the first `n - 1` slots; a word is found exactly when it is present. */
  lemma ShiftOutRemovesFirst(a: seq<string>, n: nat, w: string)
    requires n <= |a|
    ensures var i := FirstIndex(a[..n], w);
            && (i < n <==> w in a[..n])
            && (i < n ==> ShiftOut(a, i, n)[..n - 1] == RemoveFirst(a[..n], w))
            && (i == n ==> RemoveFirst(a[..n], w) == a[..n])
  {
    RemoveFirstCutsFirstMatch(a[..n], w);
    RemoveFirstCounts(a[..n], w);
  }
}
