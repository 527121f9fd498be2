/** The per-model list of identifiers a declaration uses (`typesUsed` and
    `addUsedType`): an identifier is appended the first time it is added and
    ignored afterwards. */
module UsedTypes {

  predicate NoDuplicates(s: seq<string>) {
    forall i, j :: 0 <= i < j < |s| ==> s[i] != s[j]
  }

  /** `addUsedType(t)` applied to the list `used`. */
  function WithUsed(used: seq<string>, t: string): (r: seq<string>)
    ensures t in r
    ensures forall x :: x in r <==> x in used || x == t
    ensures |used| <= |r| <= |used| + 1 && r[..|used|] == used
    ensures t in used ==> r == used
    ensures NoDuplicates(used) ==> NoDuplicates(r)
  {
    if t in used then used else used + [t]
  }

  /** `addUsedType` called on each of `ts` in turn. */
  function WithAllUsed(used: seq<string>, ts: seq<string>): seq<string>
    decreases |ts|
  {
    if ts == [] then used else WithAllUsed(WithUsed(used, ts[0]), ts[1..])
  }

  /** The position of the first occurrence of `x` in `s`. */
  function FirstIndex(s: seq<string>, x: string): (k: nat)
    requires x in s
    ensures k < |s| && s[k] == x
    ensures forall j :: 0 <= j < k ==> s[j] != x
  {
    if s[0] == x then 0 else 1 + FirstIndex(s[1..], x)
  }

  lemma WithAllUsedOne(used: seq<string>, t: string)
    ensures WithAllUsed(used, [t]) == WithUsed(used, t)
  {
  }

  lemma WithAllUsedPair(used: seq<string>, t: string, t': string)
    ensures WithAllUsed(used, [t, t']) == WithUsed(WithUsed(used, t), t')
  {
    assert [t, t'][0] == t && [t, t'][1..] == [t'];
    WithAllUsedOne(WithUsed(used, t), t');
  }

  /** Adding one batch of identifiers and then another is adding both. */
  lemma {:induction false} WithAllUsedAppend(used: seq<string>, a: seq<string>, b: seq<string>)
    ensures WithAllUsed(used, a + b) == WithAllUsed(WithAllUsed(used, a), b)
    decreases |a|
  {
    if a == [] {
      assert a + b == b;
    } else {
      assert (a + b)[0] == a[0] && (a + b)[1..] == a[1..] + b;
      WithAllUsedAppend(WithUsed(used, a[0]), a[1..], b);
    }
  }

  /** The list keeps what it had, gains exactly the added identifiers, and
      stays free of duplicates. */
  lemma {:induction false} WithAllUsedContents(used: seq<string>, ts: seq<string>)
    ensures var r := WithAllUsed(used, ts);
      && |used| <= |r| && r[..|used|] == used
      && (forall x :: x in r <==> x in used || x in ts)
      && (NoDuplicates(used) ==> NoDuplicates(r))
    decreases |ts|
  {
    if ts != [] {
      var u' := WithUsed(used, ts[0]);
      WithAllUsedContents(u', ts[1..]);
      var r := WithAllUsed(used, ts);
      assert r[..|used|] == r[..|u'|][..|used|];
      assert forall x :: x in ts <==> x == ts[0] || x in ts[1..];
    }
  }

  lemma FirstIndexAt(s: seq<string>, x: string, k: nat)
    requires k < |s| && s[k] == x
    requires forall j :: 0 <= j < k ==> s[j] != x
    ensures FirstIndex(s, x) == k
  {
  }

  /** Inserting an identifier that `used` already holds changes the first
      index of the later identifiers only, each by one. */
  lemma FirstIndexSkip(used: seq<string>, t: string, rest: seq<string>, x: string)
    requires t in used && x in used + rest
    ensures x in used + [t] + rest
    ensures x in used <==> FirstIndex(used + rest, x) < |used|
    ensures FirstIndex(used + [t] + rest, x) ==
      if x in used then FirstIndex(used + rest, x) else FirstIndex(used + rest, x) + 1
  {
    var s0, s1 := used + [t] + rest, used + rest;
    var k := FirstIndex(s1, x);
    if x in used {
      var m := FirstIndex(used, x);
      FirstIndexAt(s0, x, m);
      FirstIndexAt(s1, x, m);
    } else {
      assert |used| <= k;
      assert s0[k + 1] == x;
      forall j | 0 <= j < k + 1 ensures s0[j] != x {
        if j > |used| { assert s0[j] == s1[j - 1]; }
      }
      FirstIndexAt(s0, x, k + 1);
    }
  }

  /** Every entry of `r` occurs in `s`, and of two entries of `r` the
      earlier one first occurs earlier in `s`. */
  predicate FirstSeenOrdered(r: seq<string>, s: seq<string>) {
    && (forall i :: 0 <= i < |r| ==> r[i] in s)
    && (forall i, j :: 0 <= i < j < |r| ==> FirstIndex(s, r[i]) < FirstIndex(s, r[j]))
  }

  lemma FirstSeenOrderedSelf(s: seq<string>)
    requires NoDuplicates(s)
    ensures FirstSeenOrdered(s, s)
  {
    forall i, j | 0 <= i < j < |s|
      ensures FirstIndex(s, s[i]) < FirstIndex(s, s[j])
    {
      FirstIndexAt(s, s[i], i);
      FirstIndexAt(s, s[j], j);
    }
  }

  lemma FirstSeenOrderedSkip(used: seq<string>, t: string, rest: seq<string>, r: seq<string>)
    requires t in used && FirstSeenOrdered(r, used + rest)
    ensures FirstSeenOrdered(r, used + [t] + rest)
  {
    forall i | 0 <= i < |r| ensures r[i] in used + [t] + rest {
      assert r[i] in used + rest;
    }
    forall i, j | 0 <= i < j < |r|
      ensures FirstIndex(used + [t] + rest, r[i]) < FirstIndex(used + [t] + rest, r[j])
    {
      assert r[i] in used + rest && r[j] in used + rest;
      FirstIndexSkip(used, t, rest, r[i]);
      FirstIndexSkip(used, t, rest, r[j]);
    }
  }

  /** The list is in first-seen order: of two listed identifiers, the one
      that comes first is the one that first occurs earlier in `used + ts`. */
  lemma {:induction false} WithAllUsedFirstSeen(used: seq<string>, ts: seq<string>)
    requires NoDuplicates(used)
    ensures FirstSeenOrdered(WithAllUsed(used, ts), used + ts)
    decreases |ts|
  {
    if ts == [] {
      assert used + ts == used;
      FirstSeenOrderedSelf(used);
    } else {
      var t, rest := ts[0], ts[1..];
      assert used + ts == used + [t] + rest;
      if t in used {
        WithAllUsedFirstSeen(used, rest);
        FirstSeenOrderedSkip(used, t, rest, WithAllUsed(used, rest));
      } else {
        WithAllUsedFirstSeen(used + [t], rest);
      }
    }
  }
}
