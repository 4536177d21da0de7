/** apps/web/lib/imeDiff.ts: the smallest single replacement between two texts. */
module ImeDiff {
  /** A UTF-16 code unit, the element of a JavaScript string. */
  type CodeUnit = u: int | 0 <= u < 0x1_0000
  type Text = seq<CodeUnit>

  datatype Replacement = Replacement(start: nat, oldMiddle: Text, newMiddle: Text)

  /** `r` turns `a` into `b`: the old middle is really there, and swapping it gives `b`. */
  ghost predicate Turns(r: Replacement, a: Text, b: Text) {
    && r.start + |r.oldMiddle| <= |a|
    && a[r.start..r.start + |r.oldMiddle|] == r.oldMiddle
    && a[..r.start] + r.newMiddle + a[r.start + |r.oldMiddle|..] == b
  }

  /** The common prefix is as long as possible, and then so is the common suffix that does not overlap it. */
  ghost predicate Tight(r: Replacement, a: Text, b: Text) {
    && (r.start < |a| && r.start < |b| ==> a[r.start] != b[r.start])
    && (r.oldMiddle != [] && r.newMiddle != [] ==>
          r.oldMiddle[|r.oldMiddle| - 1] != r.newMiddle[|r.newMiddle| - 1])
  }

  method DiffEnds(a: Text, b: Text) returns (r: Replacement)
    ensures Turns(r, a, b) && Tight(r, a, b)
    ensures r.oldMiddle == [] && r.newMiddle == [] <==> a == b
    // no single replacement takes out or puts in less
    ensures forall q :: Turns(q, a, b) ==>
                          |r.oldMiddle| <= |q.oldMiddle| && |r.newMiddle| <= |q.newMiddle|
  {
    var start := 0;
    var maxStart := if |a| <= |b| then |a| else |b|;
    while start < maxStart && a[start] == b[start]
      invariant 0 <= start <= maxStart
      invariant a[..start] == b[..start]
    {
      start := start + 1;
    }
    var endA := |a|;
    var endB := |b|;
    while endA > start && endB > start && a[endA - 1] == b[endB - 1]
      invariant start <= endA <= |a| && start <= endB <= |b|
      invariant a[endA..] == b[endB..]
    {
      assert a[endA - 1..] == [a[endA - 1]] + a[endA..];
      assert b[endB - 1..] == [b[endB - 1]] + b[endB..];
      endA := endA - 1;
      endB := endB - 1;
    }
    r := Replacement(start, a[start..endA], b[start..endB]);
    assert Turns(r, a, b) && Tight(r, a, b) by {
      WindowsMeet(a, b, start, endA, endB);
    }
    TightIsSmallest(r, a, b);
    NothingReplaced(r, a, b);
  }

  /** Texts that agree before and after their windows, where the windows cannot shrink. */
  lemma WindowsMeet(a: Text, b: Text, start: nat, endA: nat, endB: nat)
    requires start <= endA <= |a| && start <= endB <= |b|
    requires a[..start] == b[..start] && a[endA..] == b[endB..]
    requires start < |a| && start < |b| ==> a[start] != b[start]
    requires start < endA && start < endB ==> a[endA - 1] != b[endB - 1]
    ensures var r := Replacement(start, a[start..endA], b[start..endB]); Turns(r, a, b) && Tight(r, a, b)
  {
    assert b == b[..start] + b[start..endB] + b[endB..];
  }

  /** No single replacement takes out or puts in less than a tight one. */
  lemma TightIsSmallest(r: Replacement, a: Text, b: Text)
    requires Turns(r, a, b) && Tight(r, a, b)
    ensures forall q :: Turns(q, a, b) ==> |r.oldMiddle| <= |q.oldMiddle| && |r.newMiddle| <= |q.newMiddle|
  {
    TightIsMinimal(r, a, b);
    MinimalIsSmallest(r, a, b);
    forall q | Turns(q, a, b) ensures |r.oldMiddle| <= |q.oldMiddle| && |r.newMiddle| <= |q.newMiddle| {
      KeptEnds(q, a, b);
    }
  }

  /** The tight replacement replaces nothing exactly when there is nothing to change. */
  lemma NothingReplaced(r: Replacement, a: Text, b: Text)
    requires Turns(r, a, b)
    requires forall q :: Turns(q, a, b) ==> |r.oldMiddle| <= |q.oldMiddle| && |r.newMiddle| <= |q.newMiddle|
    ensures r.oldMiddle == [] && r.newMiddle == [] <==> a == b
  {
    if r.oldMiddle == [] && r.newMiddle == [] {
      assert a == a[..r.start] + a[r.start..];
    }
    if a == b {
      assert Turns(Replacement(0, [], []), a, b);
    }
  }

  /** `a` and `b` agree before `start`, and `a` from `endA` on agrees with `b` from `endB` on. */
  ghost predicate AgreeOutside(a: Text, b: Text, start: nat, endA: nat, endB: nat) {
    && start <= endA <= |a| && start <= endB <= |b| && |a| - endA == |b| - endB
    && (forall k {:trigger a[k]} :: 0 <= k < start ==> a[k] == b[k])
    && (forall k {:trigger a[k]} :: endA <= k < |a| ==> a[k] == b[k - endA + endB])
  }

  /** What lies before and after the replaced middle is common to both texts. */
  lemma KeptEnds(q: Replacement, a: Text, b: Text)
    requires Turns(q, a, b)
    ensures AgreeOutside(a, b, q.start, q.start + |q.oldMiddle|, q.start + |q.newMiddle|)
  {
    var l, r := a[..q.start], a[q.start + |q.oldMiddle|..];
    assert b == l + q.newMiddle + r;
    forall k | 0 <= k < q.start ensures a[k] == b[k] {
      assert b[k] == l[k];
    }
  }

  lemma NewMiddleAt(r: Replacement, a: Text, b: Text)
    requires Turns(r, a, b)
    ensures r.start + |r.newMiddle| <= |b| && r.newMiddle == b[r.start..r.start + |r.newMiddle|]
  {
  }

  /** A tight replacement's middles, as windows of the texts, end differently. */
  lemma LastsDiffer(r: Replacement, a: Text, b: Text)
    requires Tight(r, a, b) && r.start + |r.oldMiddle| <= |a| && r.start + |r.newMiddle| <= |b|
    requires r.oldMiddle == a[r.start..r.start + |r.oldMiddle|] && r.newMiddle == b[r.start..r.start + |r.newMiddle|]
    ensures r.oldMiddle != [] && r.newMiddle != [] ==> a[r.start + |r.oldMiddle| - 1] != b[r.start + |r.newMiddle| - 1]
  {
  }

  /** What a tight replacement replaces is a window that cannot shrink. */
  ghost predicate Minimal(r: Replacement, a: Text, b: Text) {
    var endA, endB := r.start + |r.oldMiddle|, r.start + |r.newMiddle|;
    && AgreeOutside(a, b, r.start, endA, endB)
    && (r.start < |a| && r.start < |b| ==> a[r.start] != b[r.start])
    && (r.start < endA && r.start < endB ==> a[endA - 1] != b[endB - 1])
  }

  lemma TightIsMinimal(r: Replacement, a: Text, b: Text)
    requires Turns(r, a, b) && Tight(r, a, b)
    ensures Minimal(r, a, b)
  {
    KeptEnds(r, a, b);
    NewMiddleAt(r, a, b);
    LastsDiffer(r, a, b);
  }

  /** No window outside of which the texts agree is smaller than a minimal one. */
  lemma MinimalIsSmallest(r: Replacement, a: Text, b: Text)
    requires Minimal(r, a, b)
    ensures forall s: nat, endA: nat, endB: nat {:trigger AgreeOutside(a, b, s, endA, endB)} ::
              AgreeOutside(a, b, s, endA, endB) ==> |r.oldMiddle| <= endA - s && |r.newMiddle| <= endB - s
  {
  }

  predicate ShouldSyncToYjs(composing: bool, docChanged: bool, fromYjs: bool) {
    docChanged && !fromYjs && !composing
  }
}
