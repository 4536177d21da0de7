/** The line diff of apps/api/internal/domain/diff.go: splitting, the table, the greedy walk. */
module LineDiff {
  datatype Op = Equal | Delete | Insert

  datatype DiffLine = DiffLine(op: Op, text: string)

  type Lines = seq<string>

  // ---------- splitting and joining ----------

  function Split(s: string): (ls: Lines)
    ensures |ls| >= 1
  {
    if s == "" then [""]
    else
      var rest := Split(s[1..]);
      if s[0] == '\n' then [""] + rest else [[s[0]] + rest[0]] + rest[1..]
  }

  function SplitLines(s: string): Lines {
    if s == "" then [] else Split(s)
  }

  function JoinLines(ls: Lines): string {
    if ls == [] then ""
    else if |ls| == 1 then ls[0]
    else ls[0] + "\n" + JoinLines(ls[1..])
  }

  lemma {:induction false} JoinSplit(s: string)
    ensures JoinLines(Split(s)) == s
  {
    if s != "" {
      JoinSplit(s[1..]);
      var rest := Split(s[1..]);
      if s[0] == '\n' {
        assert ([""] + rest)[1..] == rest;
        assert "" + "\n" + JoinLines(rest) == s;
      } else {
        var ls := [[s[0]] + rest[0]] + rest[1..];
        assert ls[1..] == rest[1..];
        assert JoinLines(ls) == [s[0]] + JoinLines(rest) by {
          if |rest| > 1 {
            assert ([s[0]] + rest[0]) + "\n" + JoinLines(rest[1..]) == [s[0]] + (rest[0] + "\n" + JoinLines(rest[1..]));
          }
        }
      }
    }
  }

  /** Joining is a left inverse of splitting, the empty body included. */
  lemma JoinSplitLines(s: string)
    ensures JoinLines(SplitLines(s)) == s
  {
    JoinSplit(s);
  }

  lemma {:induction false} SplitHasNoBreak(s: string)
    ensures forall l :: l in Split(s) ==> '\n' !in l
  {
    if s != "" {
      SplitHasNoBreak(s[1..]);
      var rest := Split(s[1..]);
      assert rest[0] in rest;
      forall l | l in Split(s) ensures '\n' !in l {
        if s[0] != '\n' && l in rest[1..] {
          assert l in rest;
        }
      }
    }
  }

  lemma {:induction false} SplitFirst(l: string, s: string)
    requires '\n' !in l
    ensures Split(l + "\n" + s) == [l] + Split(s)
  {
    if l == "" {
      assert (l + "\n" + s)[1..] == s;
    } else {
      SplitFirst(l[1..], s);
      assert (l + "\n" + s)[1..] == l[1..] + "\n" + s;
      assert [l[0]] + l[1..] == l;
    }
  }

  lemma {:induction false} SplitSingle(l: string)
    requires '\n' !in l
    ensures Split(l) == [l]
  {
    if l != "" {
      SplitSingle(l[1..]);
      assert [l[0]] + l[1..] == l;
    }
  }

  lemma {:induction false} SplitJoin(ls: Lines)
    requires ls != [] && forall l :: l in ls ==> '\n' !in l
    ensures Split(JoinLines(ls)) == ls
  {
    if |ls| == 1 {
      SplitSingle(ls[0]);
    } else {
      SplitJoin(ls[1..]);
      SplitFirst(ls[0], JoinLines(ls[1..]));
      assert ls == [ls[0]] + ls[1..];
    }
  }

  /**
   * Splitting is a left inverse of joining on exactly the lists of break-free lines other
   * than the one-empty-line list, which joins to the empty body and so reads back as no lines.
   */
  lemma SplitJoinIff(ls: Lines)
    ensures SplitLines(JoinLines(ls)) == ls <==> ls != [""] && forall l :: l in ls ==> '\n' !in l
  {
    var s := JoinLines(ls);
    if ls != [""] && forall l :: l in ls ==> '\n' !in l {
      if ls != [] {
        SplitJoin(ls);
      }
    }
    if SplitLines(s) == ls {
      SplitHasNoBreak(s);
    }
  }

  // ---------- edit scripts ----------

  /** The old text a script reads: what is left when inserts are dropped. */
  function OldLines(out: seq<DiffLine>): Lines {
    if out == [] then []
    else (if out[0].op.Insert? then [] else [out[0].text]) + OldLines(out[1..])
  }

  /** The new text a script writes: what is left when deletes are dropped. */
  function NewLines(out: seq<DiffLine>): Lines {
    if out == [] then []
    else (if out[0].op.Delete? then [] else [out[0].text]) + NewLines(out[1..])
  }

  ghost predicate IsScript(out: seq<DiffLine>, a: Lines, b: Lines) {
    OldLines(out) == a && NewLines(out) == b
  }

  /** Number of kept lines. */
  function Kept(out: seq<DiffLine>): nat {
    if out == [] then 0 else (if out[0].op.Equal? then 1 else 0) + Kept(out[1..])
  }

  /** Number of deletes plus inserts. */
  function Changes(out: seq<DiffLine>): nat {
    if out == [] then 0 else (if out[0].op.Equal? then 0 else 1) + Changes(out[1..])
  }

  /** `c` can be read off `a` by skipping lines. */
  ghost predicate IsSubsequence(c: Lines, a: Lines) {
    c == [] || (a != [] && ((c[0] == a[0] && IsSubsequence(c[1..], a[1..])) || IsSubsequence(c, a[1..])))
  }

  /** The value the table is meant to hold for the two suffixes. */
  function Lcs(a: Lines, b: Lines): nat
    decreases |a| + |b|
  {
    if a == [] || b == [] then 0
    else if a[0] == b[0] then 1 + Lcs(a[1..], b[1..])
    else if Lcs(a[1..], b) >= Lcs(a, b[1..]) then Lcs(a[1..], b)
    else Lcs(a, b[1..])
  }

  /** The walk, on the true lengths in place of the table. */
  function Walk(a: Lines, b: Lines): seq<DiffLine>
    decreases |a| + |b|
  {
    if a == [] && b == [] then []
    else if b == [] then [DiffLine(Delete, a[0])] + Walk(a[1..], b)
    else if a == [] then [DiffLine(Insert, b[0])] + Walk(a, b[1..])
    else if a[0] == b[0] then [DiffLine(Equal, a[0])] + Walk(a[1..], b[1..])
    else if Lcs(a[1..], b) >= Lcs(a, b[1..]) then [DiffLine(Delete, a[0])] + Walk(a[1..], b)
    else [DiffLine(Insert, b[0])] + Walk(a, b[1..])
  }

  /** Script order: the first differing operation decides, with Equal < Delete < Insert. */
  ghost predicate NotAfter(x: seq<DiffLine>, y: seq<DiffLine>) {
    x == [] || (y != [] && (Rank(x[0].op) < Rank(y[0].op) || (x[0] == y[0] && NotAfter(x[1..], y[1..]))))
  }

  function Rank(op: Op): nat {
    match op case Equal => 0 case Delete => 1 case Insert => 2
  }

  // ---------- the walk is a script that keeps Lcs lines ----------

  lemma {:induction false} WalkIsScript(a: Lines, b: Lines)
    ensures IsScript(Walk(a, b), a, b)
    decreases |a| + |b|
  {
    if a != [] {
      WalkIsScript(a[1..], b);
      assert a == [a[0]] + a[1..];
    }
    if b != [] {
      WalkIsScript(a, b[1..]);
      assert b == [b[0]] + b[1..];
    }
    if a != [] && b != [] {
      WalkIsScript(a[1..], b[1..]);
    }
    if a == [] && b == [] {
    } else {
      var w := Walk(a, b);
      assert w == [w[0]] + w[1..];
    }
  }

  lemma {:induction false} WalkKeepsLcs(a: Lines, b: Lines)
    ensures Kept(Walk(a, b)) == Lcs(a, b)
    decreases |a| + |b|
  {
    if a == [] && b == [] {
    } else if b == [] {
      WalkKeepsLcs(a[1..], b);
    } else if a == [] {
      WalkKeepsLcs(a, b[1..]);
    } else {
      WalkKeepsLcs(a[1..], b[1..]);
      WalkKeepsLcs(a[1..], b);
      WalkKeepsLcs(a, b[1..]);
    }
  }

  // ---------- no common subsequence is longer ----------

  lemma {:induction false} SubsequenceTails(c: Lines, a: Lines)
    requires c != [] && IsSubsequence(c, a)
    ensures a != [] && IsSubsequence(c[1..], a[1..])
  {
    if !(c[0] == a[0] && IsSubsequence(c[1..], a[1..])) {
      SubsequenceTails(c, a[1..]);
    }
  }

  lemma {:induction false} LcsIsUpperBound(a: Lines, b: Lines, c: Lines)
    requires IsSubsequence(c, a) && IsSubsequence(c, b)
    ensures |c| <= Lcs(a, b)
    decreases |a| + |b|
  {
    if c == [] {
    } else if a[0] == b[0] {
      SubsequenceTails(c, a);
      SubsequenceTails(c, b);
      LcsIsUpperBound(a[1..], b[1..], c[1..]);
    } else if c[0] != a[0] {
      LcsIsUpperBound(a[1..], b, c);
    } else {
      LcsIsUpperBound(a, b[1..], c);
    }
  }

  /** The kept lines of a script, in order. */
  function KeptLines(out: seq<DiffLine>): Lines {
    if out == [] then [] else (if out[0].op.Equal? then [out[0].text] else []) + KeptLines(out[1..])
  }

  lemma {:induction false} KeptLinesCommon(out: seq<DiffLine>)
    ensures IsSubsequence(KeptLines(out), OldLines(out))
    ensures IsSubsequence(KeptLines(out), NewLines(out))
    ensures |KeptLines(out)| == Kept(out)
    ensures |OldLines(out)| + |NewLines(out)| == 2 * Kept(out) + Changes(out)
  {
    if out != [] {
      KeptLinesCommon(out[1..]);
      var l, k, o, n := out[0], KeptLines(out[1..]), OldLines(out[1..]), NewLines(out[1..]);
      match l.op
      case Equal =>
        assert ([l.text] + k)[1..] == k && ([l.text] + o)[1..] == o && ([l.text] + n)[1..] == n;
      case Delete =>
        assert ([l.text] + o)[1..] == o;
        assert [] + k == k && [] + n == n;
      case Insert =>
        assert ([l.text] + n)[1..] == n;
        assert [] + k == k && [] + o == o;
    }
  }

  lemma ScriptKeepsAtMostLcs(out: seq<DiffLine>, a: Lines, b: Lines)
    requires IsScript(out, a, b)
    ensures Kept(out) <= Lcs(a, b)
  {
    KeptLinesCommon(out);
    LcsIsUpperBound(a, b, KeptLines(out));
  }

  /** The diff keeps a longest common subsequence, so no edit script has fewer changes. */
  lemma WalkIsOptimal(a: Lines, b: Lines, other: seq<DiffLine>, c: Lines)
    ensures IsSubsequence(c, a) && IsSubsequence(c, b) ==> |c| <= Kept(Walk(a, b))
    ensures IsScript(other, a, b) ==> Changes(Walk(a, b)) <= Changes(other)
  {
    WalkKeepsLcs(a, b);
    WalkIsScript(a, b);
    if IsSubsequence(c, a) && IsSubsequence(c, b) {
      LcsIsUpperBound(a, b, c);
    }
    if IsScript(other, a, b) {
      ScriptKeepsAtMostLcs(other, a, b);
      KeptLinesCommon(other);
      KeptLinesCommon(Walk(a, b));
    }
  }

  // ---------- canonicity ----------

  /** Among the scripts with the fewest changes, the walk returns the least one. */
  lemma {:induction false} WalkIsLeast(a: Lines, b: Lines, s: seq<DiffLine>)
    requires IsScript(s, a, b) && Kept(s) == Lcs(a, b)
    ensures NotAfter(Walk(a, b), s)
    decreases |a| + |b|
  {
    if a != [] || b != [] {
      var w := Walk(a, b);
      match s[0].op
      case Equal =>
        assert w[1..] == Walk(a[1..], b[1..]);
        WalkIsLeast(a[1..], b[1..], s[1..]);
      case Delete =>
        ScriptKeepsAtMostLcs(s[1..], a[1..], b);
        if w[0].op.Delete? {
          assert w[1..] == Walk(a[1..], b);
          WalkIsLeast(a[1..], b, s[1..]);
        }
      case Insert =>
        if w[0].op.Insert? {
          assert w[1..] == Walk(a, b[1..]);
          WalkIsLeast(a, b[1..], s[1..]);
        }
    }
  }

  lemma {:induction false} NotAfterAntisymmetric(x: seq<DiffLine>, y: seq<DiffLine>)
    requires NotAfter(x, y) && NotAfter(y, x)
    ensures x == y
  {
    if x != [] {
      NotAfterAntisymmetric(x[1..], y[1..]);
      assert x == [x[0]] + x[1..] && y == [y[0]] + y[1..];
    }
  }

  /** Nothing is marked as changed exactly when the two bodies are the same string. */
  lemma NoChangesIff(from: string, to: string)
    ensures Changes(Walk(SplitLines(from), SplitLines(to))) == 0 <==> from == to
  {
    var a, b := SplitLines(from), SplitLines(to);
    var w := Walk(a, b);
    WalkIsScript(a, b);
    if Changes(w) == 0 {
      UnchangedScript(w);
      JoinSplitLines(from);
      JoinSplitLines(to);
    }
    if from == to {
      WalkOfEqual(a);
    }
  }

  lemma {:induction false} UnchangedScript(s: seq<DiffLine>)
    requires Changes(s) == 0
    ensures OldLines(s) == NewLines(s)
  {
    if s != [] {
      UnchangedScript(s[1..]);
    }
  }

  lemma {:induction false} WalkOfEqual(a: Lines)
    ensures Changes(Walk(a, a)) == 0
  {
    if a != [] {
      WalkOfEqual(a[1..]);
    }
  }

  // ---------- the program ----------

  /** What one cell has to hold, given its neighbours. */
  lemma LcsCell(a: Lines, b: Lines, i: nat, j: nat)
    requires i < |a| && j < |b|
    ensures Lcs(a[i..], b[j..]) ==
            if a[i] == b[j] then Lcs(a[i + 1..], b[j + 1..]) + 1
            else if Lcs(a[i + 1..], b[j..]) >= Lcs(a[i..], b[j + 1..]) then Lcs(a[i + 1..], b[j..])
            else Lcs(a[i..], b[j + 1..])
  {
    assert a[i..][0] == a[i] && a[i..][1..] == a[i + 1..];
    assert b[j..][0] == b[j] && b[j..][1..] == b[j + 1..];
  }

  lemma LcsBorder(a: Lines, b: Lines, i: nat, j: nat)
    requires i <= |a| && j <= |b| && (i == |a| || j == |b|)
    ensures Lcs(a[i..], b[j..]) == 0
  {
  }

  /** The cells right of `j` in row `i` hold the true lengths for their suffixes. */
  ghost predicate RowFilled(dp: array2<nat>, a: Lines, b: Lines, i: nat, j: int)
    requires dp.Length0 == |a| + 1 && dp.Length1 == |b| + 1 && i <= |a|
    reads dp
  {
    forall y {:trigger dp[i, y]} :: 0 <= y && j < y <= |b| ==> dp[i, y] == Lcs(a[i..], b[y..])
  }

  /** Fills row `i` of the table from the right, given the row below it. */
  method FillRow(a: Lines, b: Lines, dp: array2<nat>, i: nat)
    requires dp.Length0 == |a| + 1 && dp.Length1 == |b| + 1 && i < |a|
    requires RowFilled(dp, a, b, i + 1, -1) && dp[i, |b|] == 0
    modifies dp
    ensures RowFilled(dp, a, b, i, -1)
    ensures forall x, y :: 0 <= x <= |a| && 0 <= y <= |b| && x != i ==> dp[x, y] == old(dp[x, y])
  {
    LcsBorder(a, b, i, |b|);
    var j := |b| - 1;
    while j >= 0
      invariant -1 <= j < |b|
      invariant forall x, y :: 0 <= x <= |a| && 0 <= y <= |b| && x != i ==> dp[x, y] == old(dp[x, y])
      invariant RowFilled(dp, a, b, i, j)
    {
      LcsCell(a, b, i, j);
      assert dp[i + 1, j] == old(dp[i + 1, j]) && dp[i + 1, j + 1] == old(dp[i + 1, j + 1]);
      if a[i] == b[j] {
        dp[i, j] := dp[i + 1, j + 1] + 1;
      } else if dp[i + 1, j] >= dp[i, j + 1] {
        dp[i, j] := dp[i + 1, j];
      } else {
        dp[i, j] := dp[i, j + 1];
      }
      j := j - 1;
    }
  }

  /** Fills the table from the bottom row up; every cell is the true length for its suffixes. */
  method FillTable(a: Lines, b: Lines) returns (dp: array2<nat>)
    ensures fresh(dp) && dp.Length0 == |a| + 1 && dp.Length1 == |b| + 1
    ensures forall i, j :: 0 <= i <= |a| && 0 <= j <= |b| ==> dp[i, j] == Lcs(a[i..], b[j..])
  {
    var n, m := |a|, |b|;
    dp := new nat[n + 1, m + 1]((i, j) => 0);
    forall y | 0 <= y <= m ensures dp[n, y] == Lcs(a[n..], b[y..]) {
      LcsBorder(a, b, n, y);
    }
    var i := n - 1;
    while i >= 0
      invariant -1 <= i < n
      invariant forall x :: 0 <= x <= n ==> dp[x, m] == 0
      invariant forall x, y {:trigger dp[x, y]} :: i < x <= n && 0 <= y <= m ==> dp[x, y] == Lcs(a[x..], b[y..])
    {
      LcsBorder(a, b, i, m);
      FillRow(a, b, dp, i);
      i := i - 1;
    }
  }

  /** Reads the script off the table. */
  method WalkTable(a: Lines, b: Lines, dp: array2<nat>) returns (out: seq<DiffLine>)
    requires dp.Length0 == |a| + 1 && dp.Length1 == |b| + 1
    requires forall i, j :: 0 <= i <= |a| && 0 <= j <= |b| ==> dp[i, j] == Lcs(a[i..], b[j..])
    ensures out == Walk(a, b)
  {
    var n, m := |a|, |b|;
    out := [];
    var i, j := 0, 0;
    while i < n && j < m
      invariant 0 <= i <= n && 0 <= j <= m
      invariant Planned(out, a, b, i, j) == Walk(a, b)
      decreases n - i + m - j
    {
      WalkStep(a, b, i, j, out);
      if a[i] == b[j] {
        out := out + [DiffLine(Equal, a[i])];
        i := i + 1;
        j := j + 1;
      } else if dp[i + 1, j] >= dp[i, j + 1] {
        out := out + [DiffLine(Delete, a[i])];
        i := i + 1;
      } else {
        out := out + [DiffLine(Insert, b[j])];
        j := j + 1;
      }
    }
    while i < n
      invariant 0 <= i <= n && 0 <= j <= m && (i < n ==> j == m)
      invariant Planned(out, a, b, i, j) == Walk(a, b)
    {
      WalkStep(a, b, i, j, out);
      out := out + [DiffLine(Delete, a[i])];
      i := i + 1;
    }
    while j < m
      invariant i == n && 0 <= j <= m
      invariant Planned(out, a, b, i, j) == Walk(a, b)
    {
      WalkStep(a, b, i, j, out);
      out := out + [DiffLine(Insert, b[j])];
      j := j + 1;
    }
    assert Walk(a[i..], b[j..]) == [];
  }

  method LineDiff(from: string, to: string) returns (out: seq<DiffLine>)
    // dropping inserts gives the old body back, dropping deletes gives the new one
    ensures IsScript(out, SplitLines(from), SplitLines(to))
    ensures JoinLines(OldLines(out)) == from && JoinLines(NewLines(out)) == to
    // as many lines are kept as any common subsequence has
    ensures forall c :: IsSubsequence(c, SplitLines(from)) && IsSubsequence(c, SplitLines(to)) ==> |c| <= Kept(out)
    // no script has fewer changes, and among those that have as few this is the least
    ensures forall s :: IsScript(s, SplitLines(from), SplitLines(to)) ==> Changes(out) <= Changes(s)
    ensures forall s :: IsScript(s, SplitLines(from), SplitLines(to)) && Changes(s) == Changes(out) ==> NotAfter(out, s)
    ensures Changes(out) == 0 <==> from == to
  {
    var a := SplitLines(from);
    var b := SplitLines(to);
    if |a| == 0 && |b| == 0 {
      out := [];
    } else {
      var dp := FillTable(a, b);
      out := WalkTable(a, b, dp);
    }
    WalkMeetsPromises(from, to);
  }

  /** The script so far followed by what the walk still has to emit from cell (i, j). */
  ghost function Planned(out: seq<DiffLine>, a: Lines, b: Lines, i: nat, j: nat): seq<DiffLine>
    requires i <= |a| && j <= |b|
  {
    out + Walk(a[i..], b[j..])
  }

  /** One iteration: emitting the right line leaves the planned script as it was. */
  lemma WalkStep(a: Lines, b: Lines, i: nat, j: nat, out: seq<DiffLine>)
    requires i <= |a| && j <= |b| && (i < |a| || j < |b|)
    ensures var plan := Planned(out, a, b, i, j);
            if j == |b| then plan == Planned(out + [DiffLine(Delete, a[i])], a, b, i + 1, j)
            else if i == |a| then plan == Planned(out + [DiffLine(Insert, b[j])], a, b, i, j + 1)
            else if a[i] == b[j] then plan == Planned(out + [DiffLine(Equal, a[i])], a, b, i + 1, j + 1)
            else if Lcs(a[i + 1..], b[j..]) >= Lcs(a[i..], b[j + 1..])
            then plan == Planned(out + [DiffLine(Delete, a[i])], a, b, i + 1, j)
            else plan == Planned(out + [DiffLine(Insert, b[j])], a, b, i, j + 1)
  {
    var w := Walk(a[i..], b[j..]);
    if i < |a| {
      assert a[i..][0] == a[i] && a[i..][1..] == a[i + 1..];
    }
    if j < |b| {
      assert b[j..][0] == b[j] && b[j..][1..] == b[j + 1..];
    }
    assert out + w == (out + [w[0]]) + w[1..];
  }

  lemma WalkMeetsPromises(from: string, to: string)
    ensures var a, b := SplitLines(from), SplitLines(to);
            var w := Walk(a, b);
            && IsScript(w, a, b) && JoinLines(OldLines(w)) == from && JoinLines(NewLines(w)) == to
            && (forall c :: IsSubsequence(c, a) && IsSubsequence(c, b) ==> |c| <= Kept(w))
            && (forall s :: IsScript(s, a, b) ==> Changes(w) <= Changes(s))
            && (forall s :: IsScript(s, a, b) && Changes(s) == Changes(w) ==> NotAfter(w, s))
            && (Changes(w) == 0 <==> from == to)
  {
    var a, b := SplitLines(from), SplitLines(to);
    var w := Walk(a, b);
    WalkIsScript(a, b);
    JoinSplitLines(from);
    JoinSplitLines(to);
    NoChangesIff(from, to);
    forall c | IsSubsequence(c, a) && IsSubsequence(c, b) ensures |c| <= Kept(w) {
      WalkIsOptimal(a, b, [], c);
    }
    forall s | IsScript(s, a, b) ensures Changes(w) <= Changes(s) && (Changes(s) == Changes(w) ==> NotAfter(w, s)) {
      WalkIsOptimal(a, b, s, []);
      if Changes(s) == Changes(w) {
        KeptLinesCommon(s);
        KeptLinesCommon(w);
        WalkKeepsLcs(a, b);
        WalkIsLeast(a, b, s);
      }
    }
  }
}
