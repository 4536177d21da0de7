/** Types and sequence facts that every part of the model shares. */
module Common {
  /** Identifiers are opaque strings; the empty string stands for "none". */
  type Id = string

  /** An instant, in nanoseconds since the Unix epoch. */
  type Time = int

  datatype Option<+T> = None | Some(value: T)

  datatype Error = NotFound | Forbidden | Conflict | Invalid

  /** What a store or service call returns.  `Stale` is a conflict that hands back the current record. */
  datatype Outcome<+T> = Ok(value: T) | Stale(current: T) | Err(error: Error)

  ghost predicate NoDup<T>(s: seq<T>) {
    forall i, j :: 0 <= i < j < |s| ==> s[i] != s[j]
  }

  /** `s` with every occurrence of `x` taken out. */
  function Without<T(==)>(s: seq<T>, x: T): seq<T> {
    if s == [] then []
    else if s[0] == x then Without(s[1..], x)
    else [s[0]] + Without(s[1..], x)
  }

  /** `position` forced into `0..n`. */
  function Clamp(position: int, n: nat): nat {
    if position < 0 then 0 else if position > n then n else position
  }

  function InsertAt<T>(s: seq<T>, k: nat, x: T): seq<T>
    requires k <= |s|
  {
    s[..k] + [x] + s[k..]
  }

  lemma {:induction false} WithoutElements<T>(s: seq<T>, x: T)
    ensures forall y :: y in Without(s, x) <==> y in s && y != x
    ensures |Without(s, x)| <= |s|
  {
    if s != [] {
      WithoutElements(s[1..], x);
      assert s == [s[0]] + s[1..];
    }
  }

  lemma {:induction false} WithoutNoDup<T>(s: seq<T>, x: T)
    requires NoDup(s)
    ensures NoDup(Without(s, x))
  {
    if s != [] {
      WithoutNoDup(s[1..], x);
      WithoutElements(s[1..], x);
      assert s[0] !in s[1..];
    }
  }

  lemma {:induction false} WithoutAbsent<T>(s: seq<T>, x: T)
    requires x !in s
    ensures Without(s, x) == s
  {
    if s != [] {
      WithoutAbsent(s[1..], x);
    }
  }

  lemma {:induction false} WithoutConcat<T>(s: seq<T>, t: seq<T>, x: T)
    ensures Without(s + t, x) == Without(s, x) + Without(t, x)
  {
    if s == [] {
      assert s + t == t;
    } else {
      WithoutConcat(s[1..], t, x);
      assert (s + t)[1..] == s[1..] + t;
    }
  }

  /** Taking out an element that occurs once closes the gap it leaves. */
  lemma {:induction false} WithoutAt<T>(s: seq<T>, k: nat)
    requires NoDup(s) && k < |s|
    ensures Without(s, s[k]) == s[..k] + s[k + 1..]
  {
    if k == 0 {
      WithoutAbsent(s[1..], s[0]);
      assert s[..0] + s[1..] == s[1..];
    } else {
      WithoutAt(s[1..], k - 1);
      assert s[1..][..k - 1] == s[1..k] && s[1..][k..] == s[k + 1..];
      assert [s[0]] + s[1..k] == s[..k];
    }
  }

  /** Taking out what was just inserted gives back the list. */
  lemma WithoutInsertAt<T>(s: seq<T>, k: nat, x: T)
    requires k <= |s| && x !in s
    ensures Without(InsertAt(s, k, x), x) == s
  {
    var l, r := s[..k], s[k..];
    assert s == l + r;
    WithoutConcat(l + [x], r, x);
    WithoutConcat(l, [x], x);
    WithoutAbsent(l, x);
    WithoutAbsent(r, x);
    assert Without([x], x) == [];
    assert l + [] == l;
  }

  lemma InsertAtElements<T>(s: seq<T>, k: nat, x: T)
    requires k <= |s|
    ensures forall y :: y in InsertAt(s, k, x) <==> y in s || y == x
  {
    assert s == s[..k] + s[k..];
  }

  lemma InsertAtNoDup<T>(s: seq<T>, k: nat, x: T)
    requires k <= |s| && NoDup(s) && x !in s
    ensures NoDup(InsertAt(s, k, x))
  {
    var r := InsertAt(s, k, x);
    forall i, j | 0 <= i < j < |r| ensures r[i] != r[j] {
      assert r[i] == if i < k then s[i] else if i == k then x else s[i - 1];
      assert r[j] == if j < k then s[j] else if j == k then x else s[j - 1];
    }
  }

  /** A list without repeats whose elements all come from another list is no longer than it. */
  lemma {:induction false} NoDupLength<T>(s: seq<T>, t: seq<T>)
    requires NoDup(s) && forall x :: x in s ==> x in t
    ensures |s| <= |t|
  {
    if s != [] {
      var x := s[0];
      WithoutElements(t, x);
      WithoutShorter(t, x);
      forall y | y in s[1..] ensures y in Without(t, x) {
        assert y in s;
      }
      NoDupLength(s[1..], Without(t, x));
    }
  }

  lemma {:induction false} WithoutShorter<T>(s: seq<T>, x: T)
    requires x in s
    ensures |Without(s, x)| < |s|
  {
    if s[0] == x {
      WithoutElements(s[1..], x);
    } else {
      WithoutShorter(s[1..], x);
    }
  }

  lemma UnionUpdate<V>(m: map<Id, V>, n: map<Id, V>, k: Id, v: V)
    ensures (m + n)[k := v] == m + n[k := v]
  {
  }

  // ---------- text helpers ----------

  /** The white space that Go's strings.TrimSpace removes (Unicode White_Space). */
  predicate IsSpace(c: char) {
    var u := c as int;
    || 9 <= u <= 13 || u == 0x20 || u == 0x85 || u == 0xA0 || u == 0x1680
    || 0x2000 <= u <= 0x200A || u == 0x2028 || u == 0x2029 || u == 0x202F || u == 0x205F || u == 0x3000
  }

  function TrimLeft(s: string): string {
    if s != "" && IsSpace(s[0]) then TrimLeft(s[1..]) else s
  }

  function TrimRight(s: string): string {
    if s != "" && IsSpace(s[|s| - 1]) then TrimRight(s[..|s| - 1]) else s
  }

  function TrimSpace(s: string): string {
    TrimRight(TrimLeft(s))
  }

  /** Number of bytes of the UTF-8 form, which is what Go's len counts. */
  function ByteLen(s: string): nat {
    if s == "" then 0
    else
      var u := s[0] as int;
      (if u < 0x80 then 1 else if u < 0x800 then 2 else if u < 0x1_0000 then 3 else 4) + ByteLen(s[1..])
  }
}
