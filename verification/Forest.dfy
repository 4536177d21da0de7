/** Parent pointers: climbing them, reaching the root, and what cannot happen above a root. */
module Forest {
  import opened Common

  /** Each known page with its parent id; the empty id means "no parent" and is never a page. */
  type Parents = map<Id, Id>

  /** `n` steps up from `d` lead to `a`. */
  ghost predicate Climbs(m: Parents, d: Id, a: Id, n: nat)
    decreases n
  {
    if n == 0 then d == a else d in m && Climbs(m, m[d], a, n - 1)
  }

  /** The chain from `x` ends properly. */
  ghost predicate ReachesRoot(m: Parents, x: Id) {
    exists n: nat :: Climbs(m, x, "", n)
  }

  ghost predicate Rooted(m: Parents, d: Id) {
    d in m && ReachesRoot(m, d)
  }

  /** `d` is a strict descendant of `a`. */
  ghost predicate Below(m: Parents, d: Id, a: Id) {
    exists n: nat :: n >= 1 && Climbs(m, d, a, n)
  }

  ghost predicate AtOrBelow(m: Parents, d: Id, a: Id) {
    exists n: nat :: Climbs(m, d, a, n)
  }

  ghost function Under(m: Parents, a: Id): set<Id> {
    set d | d in m && Below(m, d, a)
  }

  /** Every page's chain ends at a root. */
  ghost predicate IsForest(m: Parents) {
    "" !in m && forall d :: d in m ==> Rooted(m, d)
  }

  lemma {:induction false} ClimbsJoin(m: Parents, x: Id, y: Id, z: Id, i: nat, j: nat)
    requires Climbs(m, x, y, i) && Climbs(m, y, z, j)
    ensures Climbs(m, x, z, i + j)
    decreases i
  {
    if i > 0 {
      ClimbsJoin(m, m[x], y, z, i - 1, j);
    }
  }

  /** Two climbs from one place: the longer continues the shorter. */
  lemma {:induction false} ClimbsSplit(m: Parents, x: Id, y: Id, z: Id, i: nat, j: nat)
    requires Climbs(m, x, y, i) && Climbs(m, x, z, j) && i <= j
    ensures Climbs(m, y, z, j - i)
    decreases i
  {
    if i > 0 {
      ClimbsSplit(m, m[x], y, z, i - 1, j - 1);
    }
  }

  /** The last step of a climb. */
  lemma {:induction false} LastStep(m: Parents, d: Id, a: Id, n: nat) returns (c: Id)
    requires n >= 1 && Climbs(m, d, a, n)
    ensures c in m && m[c] == a && Climbs(m, d, c, n - 1)
    decreases n
  {
    if n == 1 {
      c := d;
    } else {
      c := LastStep(m, m[d], a, n - 1);
    }
  }

  /** On the way to the root nothing lies beyond it. */
  lemma RootIsLast(m: Parents, x: Id, a: Id, k: nat, n: nat)
    requires "" !in m && Climbs(m, x, "", k) && Climbs(m, x, a, n) && (a != "" || n <= k)
    ensures n <= k && Climbs(m, a, "", k - n)
  {
    if n <= k {
      ClimbsSplit(m, x, a, "", n, k);
    } else {
      ClimbsSplit(m, x, "", a, k, n);
    }
  }

  lemma DepthUnique(m: Parents, x: Id, k: nat, n: nat)
    requires "" !in m && Climbs(m, x, "", k) && Climbs(m, x, "", n)
    ensures k == n
  {
    if k < n {
      ClimbsSplit(m, x, "", "", k, n);
    } else {
      ClimbsSplit(m, x, "", "", n, k);
    }
  }

  /** Everything above a page that reaches the root reaches it too. */
  lemma AboveRooted(m: Parents, x: Id, a: Id, n: nat)
    requires "" !in m && ReachesRoot(m, x) && Climbs(m, x, a, n)
    ensures ReachesRoot(m, a)
  {
    var k: nat :| Climbs(m, x, "", k);
    if a == "" {
      assert Climbs(m, a, "", 0);
    } else {
      RootIsLast(m, x, a, k, n);
    }
  }

  /** A page that reaches the root is not below itself. */
  lemma RootedAcyclic(m: Parents, x: Id)
    requires "" !in m && ReachesRoot(m, x)
    ensures !Below(m, x, x)
  {
    if Below(m, x, x) {
      var n: nat :| n >= 1 && Climbs(m, x, x, n);
      var k: nat :| Climbs(m, x, "", k);
      if x != "" {
        RootIsLast(m, x, x, k, n);
        DepthUnique(m, x, k, k - n);
      }
    }
  }

  lemma BelowTransitive(m: Parents, x: Id, y: Id, z: Id)
    requires Below(m, x, y) && AtOrBelow(m, y, z)
    ensures Below(m, x, z)
  {
    var i: nat :| i >= 1 && Climbs(m, x, y, i);
    var j: nat :| Climbs(m, y, z, j);
    ClimbsJoin(m, x, y, z, i, j);
  }

  lemma ChildBelow(m: Parents, c: Id)
    requires c in m
    ensures Below(m, c, m[c]) && AtOrBelow(m, c, m[c])
  {
    assert Climbs(m, c, m[c], 1) by {
      assert Climbs(m, m[c], m[c], 0);
    }
  }

  /** The pages under a child are fewer than those under its parent. */
  lemma UnderShrinks(m: Parents, c: Id)
    requires "" !in m && c in m && ReachesRoot(m, c)
    ensures Under(m, c) < Under(m, m[c])
  {
    ChildBelow(m, c);
    forall d | d in Under(m, c) ensures d in Under(m, m[c]) {
      BelowTransitive(m, d, c, m[c]);
    }
    RootedAcyclic(m, c);
    assert c in Under(m, m[c]) && c !in Under(m, c);
  }

  /** Subtrees of different siblings have nothing in common. */
  lemma SiblingsDisjoint(m: Parents, a: Id, b: Id, x: Id)
    requires "" !in m && a in m && b in m && m[a] == m[b] && ReachesRoot(m, m[a])
    requires AtOrBelow(m, x, a) && AtOrBelow(m, x, b)
    ensures a == b
  {
    var i: nat :| Climbs(m, x, a, i);
    var j: nat :| Climbs(m, x, b, j);
    var k: nat :| Climbs(m, m[a], "", k);
    assert Climbs(m, a, "", k + 1) && Climbs(m, b, "", k + 1);
    ClimbsJoin(m, x, a, "", i, k + 1);
    ClimbsJoin(m, x, b, "", j, k + 1);
    DepthUnique(m, x, i + (k + 1), j + (k + 1));
    ClimbsSplit(m, x, a, b, i, j);
  }

  /** What lies below `a` is exactly its children and what lies below them. */
  lemma BelowViaChild(m: Parents, d: Id, a: Id)
    ensures Below(m, d, a) <==> exists c :: c in m && m[c] == a && AtOrBelow(m, d, c)
  {
    if Below(m, d, a) {
      var n: nat :| n >= 1 && Climbs(m, d, a, n);
      var c := LastStep(m, d, a, n);
      assert AtOrBelow(m, d, c);
    }
    if exists c :: c in m && m[c] == a && AtOrBelow(m, d, c) {
      var c :| c in m && m[c] == a && AtOrBelow(m, d, c);
      var n: nat :| Climbs(m, d, c, n);
      assert Climbs(m, c, a, 1) by {
        assert Climbs(m, a, a, 0);
      }
      ClimbsJoin(m, d, c, a, n, 1);
    }
  }

  lemma AtOrBelowIff(m: Parents, d: Id, a: Id)
    ensures AtOrBelow(m, d, a) <==> d == a || Below(m, d, a)
  {
    if d == a {
      assert Climbs(m, d, a, 0);
    }
    if AtOrBelow(m, d, a) && d != a {
      var n: nat :| Climbs(m, d, a, n);
      assert n >= 1;
    }
  }

  // ---------- walking up with a set of seen ids ----------

  /** The state of an upward walk that started at `start`: `cur` is reached, and every seen id leads to it. */
  ghost predicate Walked(m: Parents, start: Id, cur: Id, seen: set<Id>) {
    && AtOrBelow(m, start, cur)
    && forall s :: s in seen ==> s in m && Below(m, s, cur)
  }

  lemma WalkStep(m: Parents, start: Id, cur: Id, seen: set<Id>)
    requires Walked(m, start, cur, seen) && cur in m
    ensures Walked(m, start, m[cur], seen + {cur})
  {
    ChildBelow(m, cur);
    var n: nat :| Climbs(m, start, cur, n);
    assert Climbs(m, cur, m[cur], 1) by {
      assert Climbs(m, m[cur], m[cur], 0);
    }
    ClimbsJoin(m, start, cur, m[cur], n, 1);
    forall s | s in seen + {cur} ensures s in m && Below(m, s, m[cur]) {
      if s in seen {
        BelowTransitive(m, s, cur, m[cur]);
      }
    }
  }

  /** A walk that meets a seen id goes round for ever; one that leaves the map anywhere but at the root is stuck. */
  lemma WalkFails(m: Parents, start: Id, cur: Id, seen: set<Id>)
    requires "" !in m && Walked(m, start, cur, seen) && cur != "" && (cur in seen || cur !in m)
    ensures !ReachesRoot(m, start)
  {
    if ReachesRoot(m, start) {
      var n: nat :| Climbs(m, start, cur, n);
      AboveRooted(m, start, cur, n);
      if cur in seen {
        RootedAcyclic(m, cur);
      }
    }
  }

  lemma WalkSucceeds(m: Parents, start: Id, seen: set<Id>)
    requires Walked(m, start, "", seen)
    ensures ReachesRoot(m, start)
  {
    var n: nat :| Climbs(m, start, "", n);
  }

  // ---------- changing one pointer ----------

  /** A climb that does not pass `p` is not affected by a new pointer at `p`. */
  lemma {:induction false} ClimbUnaffected(m: Parents, p: Id, q: Id, x: Id, a: Id, n: nat)
    requires Climbs(m, x, a, n) && forall i: nat :: i < n ==> !Climbs(m, x, p, i)
    ensures Climbs(m[p := q], x, a, n)
    decreases n
  {
    if n > 0 {
      assert !Climbs(m, x, p, 0);
      forall i: nat | i < n - 1 ensures !Climbs(m, m[x], p, i) {
        assert !Climbs(m, x, p, i + 1);
      }
      ClimbUnaffected(m, p, q, m[x], a, n - 1);
    }
  }

  /** Hanging `p` under `q` keeps every chain ending at a root, when `q` is not `p` or below it. */
  lemma ReparentKeepsForest(m: Parents, p: Id, q: Id)
    requires "" !in m && p != "" && ReachesRoot(m, q) && !AtOrBelow(m, q, p)
    requires forall d :: d in m ==> Rooted(m, d)
    ensures IsForest(m[p := q])
  {
    var m' := m[p := q];
    var k: nat :| Climbs(m, q, "", k);
    ClimbUnaffected(m, p, q, q, "", k);
    assert Climbs(m', p, "", k + 1);
    forall d | d in m' ensures Rooted(m', d) {
      if d != p {
        var n: nat :| Climbs(m, d, "", n);
        ReparentedReachesRoot(m, p, q, d, n);
      }
    }
  }

  lemma {:induction false} ReparentedReachesRoot(m: Parents, p: Id, q: Id, d: Id, n: nat)
    requires Climbs(m, d, "", n) && ReachesRoot(m[p := q], p)
    ensures ReachesRoot(m[p := q], d)
    decreases n
  {
    if d != p {
      if n == 0 {
        assert Climbs(m[p := q], d, "", 0);
      } else {
        ReparentedReachesRoot(m, p, q, m[d], n - 1);
        var k: nat :| Climbs(m[p := q], m[d], "", k);
        assert Climbs(m[p := q], d, "", k + 1);
      }
    }
  }
}
