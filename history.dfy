/** The prompt history of index.tsx: a most-recent-first list of the prompts
    that were submitted, without duplicates, kept to `MaxEntries` by the save
    operation. Its persistence in local storage is not modelled. */
module History {

  /** The length beyond which saving drops the oldest entry. */
  const MaxEntries: nat := 20

  function Count(h: seq<string>, x: string): nat
  {
    multiset(h)[x]
  }

  /** `sub` is `h` with some entries left out and the others in their order. */
  predicate IsSubsequence(sub: seq<string>, h: seq<string>)
    decreases |h|
  {
    if sub == [] then true
    else if h == [] then false
    else if sub[0] == h[0] then IsSubsequence(sub[1..], h[1..])
    else IsSubsequence(sub, h[1..])
  }

  /** `h.filter(t => t !== txt)`: every entry but `txt`, in order. */
  function Without(h: seq<string>, txt: string): (r: seq<string>)
    ensures txt !in r
    ensures forall x :: x != txt ==> Count(r, x) == Count(h, x)
    ensures |r| == |h| - Count(h, txt)
    ensures IsSubsequence(r, h)
    decreases |h|
  {
    if h == [] then []
    else
      assert h == [h[0]] + h[1..];
      if h[0] == txt then Without(h[1..], txt)
      else [h[0]] + Without(h[1..], txt)
  }

  /** The list that `saveHistory(txt)` leaves: `txt` put in front of the
      other entries, and the last (oldest) entry popped when that makes the
      list longer than `MaxEntries`. */
  function Saved(h: seq<string>, txt: string): seq<string>
  {
    var l := [txt] + Without(h, txt);
    if |l| > MaxEntries then l[..|l| - 1] else l
  }

  lemma SubsequencePrefix(sub: seq<string>, h: seq<string>, n: nat)
    requires IsSubsequence(sub, h) && n <= |sub|
    ensures IsSubsequence(sub[..n], h)
    decreases |h|
  {
    if n > 0 && h != [] {
      if sub[0] == h[0] {
        SubsequencePrefix(sub[1..], h[1..], n - 1);
        assert sub[..n][1..] == sub[1..][..n - 1];
      } else {
        SubsequencePrefix(sub, h[1..], n);
      }
    }
  }

  /** After saving, `txt` heads the list and occurs in it exactly once; the
      rest of the list is the other entries, still in their previous order,
      and differs from them at most by the one oldest entry dropped, which
      happens only when there were `MaxEntries` others. */
  lemma {:induction false} SavedShape(h: seq<string>, txt: string)
    ensures |Saved(h, txt)| >= 1 && Saved(h, txt)[0] == txt
    ensures Count(Saved(h, txt), txt) == 1
    ensures |Without(h, txt)| < MaxEntries ==> Saved(h, txt)[1..] == Without(h, txt)
    ensures |Without(h, txt)| >= MaxEntries ==>
              Saved(h, txt)[1..] == Without(h, txt)[..|Without(h, txt)| - 1]
    ensures IsSubsequence(Saved(h, txt)[1..], h)
  {
    var others := Without(h, txt);
    var l := [txt] + others;
    var r := Saved(h, txt);
    assert l[1..] == others;
    if |l| > MaxEntries {
      assert r == [txt] + others[..|others| - 1];
      assert r[1..] == others[..|others| - 1];
      SubsequencePrefix(others, h, |others| - 1);
      assert txt !in others[..|others| - 1];
      assert multiset(r) == multiset([txt]) + multiset(others[..|others| - 1]);
    } else {
      assert multiset(r) == multiset([txt]) + multiset(others);
    }
  }

  /** Filtering out `txt` keeps every other entry. */
  lemma WithoutKeeps(h: seq<string>, txt: string, x: string)
    requires x in h && x != txt
    ensures x in Without(h, txt)
  {
    assert Count(h, x) > 0;
    assert Count(Without(h, txt), x) > 0;
  }

  /** Dropping the last entry loses `x` exactly when that entry was the only
      copy of `x`. */
  lemma DropLast(w: seq<string>, x: string)
    requires x in w
    ensures x !in w[..|w| - 1] <==> w[|w| - 1] == x && Count(w, x) == 1
  {
    var front := w[..|w| - 1];
    assert w == front + [w[|w| - 1]];
    assert multiset(w) == multiset(front) + multiset{w[|w| - 1]};
  }

  /** An entry other than `txt` is missing after saving exactly when it is
      the one popped: the last of the other entries, once there are
      `MaxEntries` of them, and the only copy of itself among them. */
  lemma SavedKeepsOthers(h: seq<string>, txt: string, x: string)
    requires x in h && x != txt
    ensures var w := Without(h, txt);
      x !in Saved(h, txt) <==> |w| >= MaxEntries && w[|w| - 1] == x && Count(w, x) == 1
  {
    var w := Without(h, txt);
    WithoutKeeps(h, txt, x);
    SavedShape(h, txt);
    var r := Saved(h, txt);
    assert x in r <==> x in r[1..] by {
      assert r == [txt] + r[1..];
    }
    if |w| >= MaxEntries {
      DropLast(w, x);
    }
  }

  /** A list within the bound stays within it. */
  lemma SavedBounded(h: seq<string>, txt: string)
    requires |h| <= MaxEntries
    ensures |Saved(h, txt)| <= MaxEntries
  {
  }

  /** Within the bound, saving the same prompt twice is saving it once. */
  lemma {:induction false} SavedIdempotent(h: seq<string>, txt: string)
    requires |h| <= MaxEntries
    ensures Saved(Saved(h, txt), txt) == Saved(h, txt)
  {
    var r := Saved(h, txt);
    var rest := r[1..];
    assert r == [txt] + rest;
    assert txt !in rest by {
      SavedShape(h, txt);
      assert multiset(r) == multiset([txt]) + multiset(rest);
    }
    WithoutAbsent(rest, txt);
    assert Without(r, txt) == rest;
  }

  lemma {:induction false} WithoutAbsent(h: seq<string>, txt: string)
    requires txt !in h
    ensures Without(h, txt) == h
    decreases |h|
  {
    if h != [] {
      WithoutAbsent(h[1..], txt);
      assert h == [h[0]] + h[1..];
    }
  }

  /** The history list of the page, updated in place by its two handlers. */
  class PromptHistory {
    var entries: seq<string>

    /** The list read back from storage when the page loads. */
    constructor (stored: seq<string>)
      ensures entries == stored
    {
      entries := stored;
    }

    /** `saveHistory(txt)`: filter out `txt`, `unshift` it, `pop` when the
        list has grown past `MaxEntries`. */
    method Save(txt: string)
      modifies this
      ensures entries == Saved(old(entries), txt)
      ensures |old(entries)| <= MaxEntries ==> |entries| <= MaxEntries
    {
      entries := Without(entries, txt);
      entries := [txt] + entries;
      if |entries| > MaxEntries {
        entries := entries[..|entries| - 1];
      }
    }

    /** The clear-history handler. */
    method Clear()
      modifies this
      ensures entries == []
    {
      entries := [];
    }
  }
}
