/** apps/web/components/yCollabIME.ts: keeping the editor document and the shared text together. */
module CollabIME {
  import opened ImeDiff

  /** One range of a change set; both ends are positions in the document before the whole set. */
  datatype Change = Change(from: nat, to: nat, insert: Text)

  /** One item of a shared-text event; lengths count from where the previous item stopped. */
  datatype DeltaItem = InsertItem(text: Text) | DeleteItem(count: nat) | RetainItem(count: nat)

  // ---------- change sets ----------

  /** The ranges lie in `lo..n`, in order and without overlap. */
  predicate Fits(cs: seq<Change>, lo: nat, n: nat) {
    if cs == [] then lo <= n
    else lo <= cs[0].from <= cs[0].to <= n && Fits(cs[1..], cs[0].to, n)
  }

  /** All ranges replaced at once: what the change set makes of `doc[lo..]`. */
  function ApplyChanges(doc: Text, cs: seq<Change>, lo: nat): Text
    requires Fits(cs, lo, |doc|)
  {
    if cs == [] then doc[lo..]
    else doc[lo..cs[0].from] + cs[0].insert + ApplyChanges(doc, cs[1..], cs[0].to)
  }

  lemma ApplyFirst(doc: Text, c: Change, rest: seq<Change>, lo: nat)
    requires lo <= c.from <= c.to <= |doc| && Fits(rest, c.to, |doc|)
    ensures Fits([c] + rest, lo, |doc|)
    ensures ApplyChanges(doc, [c] + rest, lo) == doc[lo..c.from] + c.insert + ApplyChanges(doc, rest, c.to)
  {
    assert ([c] + rest)[0] == c && ([c] + rest)[1..] == rest;
  }

  // ---------- deltas ----------

  predicate DeltaFits(delta: seq<DeltaItem>, pos: nat, n: nat) {
    if delta == [] then pos <= n
    else
      match delta[0]
      case InsertItem(_) => DeltaFits(delta[1..], pos, n)
      case DeleteItem(k) => DeltaFits(delta[1..], pos + k, n)
      case RetainItem(k) => DeltaFits(delta[1..], pos + k, n)
  }

  lemma {:induction false} DeltaFitsBound(delta: seq<DeltaItem>, pos: nat, n: nat)
    requires DeltaFits(delta, pos, n)
    ensures pos <= n
  {
    if delta != [] {
      match delta[0]
      case InsertItem(_) => DeltaFitsBound(delta[1..], pos, n);
      case DeleteItem(k) => DeltaFitsBound(delta[1..], pos + k, n);
      case RetainItem(k) => DeltaFitsBound(delta[1..], pos + k, n);
    }
  }

  /** What the delta makes of `text[pos..]`, reading it from left to right. */
  function ApplyDelta(text: Text, delta: seq<DeltaItem>, pos: nat): Text
    requires DeltaFits(delta, pos, |text|)
  {
    if delta == [] then text[pos..]
    else
      match delta[0]
      case InsertItem(t) => t + ApplyDelta(text, delta[1..], pos)
      case DeleteItem(k) => ApplyDelta(text, delta[1..], pos + k)
      case RetainItem(k) =>
        DeltaFitsBound(delta[1..], pos + k, |text|);
        text[pos..pos + k] + ApplyDelta(text, delta[1..], pos + k)
  }

  /** The change set built for a delta, from position `pos` of the old document. */
  function DeltaChanges(delta: seq<DeltaItem>, pos: nat): seq<Change> {
    if delta == [] then []
    else
      match delta[0]
      case InsertItem(t) => [Change(pos, pos, t)] + DeltaChanges(delta[1..], pos)
      case DeleteItem(k) => [Change(pos, pos + k, [])] + DeltaChanges(delta[1..], pos + k)
      case RetainItem(k) => DeltaChanges(delta[1..], pos + k)
  }

  lemma {:induction false} DeltaChangesFit(delta: seq<DeltaItem>, lo: nat, pos: nat, n: nat)
    requires lo <= pos && DeltaFits(delta, pos, n)
    ensures Fits(DeltaChanges(delta, pos), lo, n)
  {
    if delta == [] {
    } else {
      DeltaFitsBound(delta, pos, n);
      match delta[0]
      case InsertItem(t) =>
        DeltaChangesFit(delta[1..], pos, pos, n);
      case DeleteItem(k) =>
        DeltaFitsBound(delta[1..], pos + k, n);
        DeltaChangesFit(delta[1..], pos + k, pos + k, n);
      case RetainItem(k) =>
        DeltaChangesFit(delta[1..], lo, pos + k, n);
    }
  }

  lemma RetainedPart(text: Text, lo: nat, pos: nat, k: nat, r: Text)
    requires lo <= pos && pos + k <= |text|
    ensures text[lo..pos + k] + r == text[lo..pos] + (text[pos..pos + k] + r)
    ensures text[lo..] == text[lo..pos] + text[pos..]
  {
    assert text[lo..pos + k] == text[lo..pos] + text[pos..pos + k];
    Associates(text[lo..pos], text[pos..pos + k], r);
  }

  lemma Associates(x: Text, y: Text, z: Text)
    ensures x + y + z == x + (y + z)
  {
  }

  /** A range in front of the changes for the rest of the delta. */
  lemma SplicedChange(text: Text, c: Change, rest: seq<DeltaItem>, lo: nat)
    requires lo <= c.from <= c.to <= |text| && DeltaFits(rest, c.to, |text|)
    requires Fits(DeltaChanges(rest, c.to), c.to, |text|)
    requires ApplyChanges(text, DeltaChanges(rest, c.to), c.to) == text[c.to..c.to] + ApplyDelta(text, rest, c.to)
    ensures Fits([c] + DeltaChanges(rest, c.to), lo, |text|)
    ensures ApplyChanges(text, [c] + DeltaChanges(rest, c.to), lo)
         == text[lo..c.from] + (c.insert + ApplyDelta(text, rest, c.to))
  {
    ApplyFirst(text, c, DeltaChanges(rest, c.to), lo);
    var r := ApplyDelta(text, rest, c.to);
    assert text[c.to..c.to] + r == r;
    Associates(text[lo..c.from], c.insert, r);
  }

  /** From `pos` on, the delta and the change set built for it say the same thing about the document from `lo` on. */
  ghost predicate SameMeaning(text: Text, delta: seq<DeltaItem>, lo: nat, pos: nat)
    requires lo <= pos && DeltaFits(delta, pos, |text|)
  {
    && pos <= |text| && Fits(DeltaChanges(delta, pos), lo, |text|)
    && ApplyChanges(text, DeltaChanges(delta, pos), lo) == text[lo..pos] + ApplyDelta(text, delta, pos)
  }

  lemma InsertMeans(text: Text, delta: seq<DeltaItem>, lo: nat, pos: nat)
    requires lo <= pos && DeltaFits(delta, pos, |text|) && delta != [] && delta[0].InsertItem?
    requires SameMeaning(text, delta[1..], pos, pos)
    ensures SameMeaning(text, delta, lo, pos)
  {
    SplicedChange(text, Change(pos, pos, delta[0].text), delta[1..], lo);
  }

  lemma DeleteMeans(text: Text, delta: seq<DeltaItem>, lo: nat, pos: nat)
    requires lo <= pos && DeltaFits(delta, pos, |text|) && delta != [] && delta[0].DeleteItem?
    requires SameMeaning(text, delta[1..], pos + delta[0].count, pos + delta[0].count)
    ensures SameMeaning(text, delta, lo, pos)
  {
    SplicedChange(text, Change(pos, pos + delta[0].count, []), delta[1..], lo);
  }

  lemma RetainMeans(text: Text, delta: seq<DeltaItem>, lo: nat, pos: nat)
    requires lo <= pos && DeltaFits(delta, pos, |text|) && delta != [] && delta[0].RetainItem?
    requires SameMeaning(text, delta[1..], lo, pos + delta[0].count)
    ensures SameMeaning(text, delta, lo, pos)
  {
    var k := delta[0].count;
    RetainedPart(text, lo, pos, k, ApplyDelta(text, delta[1..], pos + k));
  }

  /** A delta and the change set built for it say the same thing about every document. */
  lemma {:induction false} DeltaChangesApply(text: Text, delta: seq<DeltaItem>, lo: nat, pos: nat)
    requires lo <= pos && DeltaFits(delta, pos, |text|)
    ensures pos <= |text| && Fits(DeltaChanges(delta, pos), lo, |text|)
    ensures ApplyChanges(text, DeltaChanges(delta, pos), lo) == text[lo..pos] + ApplyDelta(text, delta, pos)
  {
    assert SameMeaning(text, delta, lo, pos) by {
      if delta == [] {
        RetainedPart(text, lo, pos, |text| - pos, []);
      } else {
        match delta[0]
        case InsertItem(_) =>
          DeltaChangesApply(text, delta[1..], pos, pos);
          InsertMeans(text, delta, lo, pos);
        case DeleteItem(k) =>
          DeltaChangesApply(text, delta[1..], pos + k, pos + k);
          DeleteMeans(text, delta, lo, pos);
        case RetainItem(k) =>
          DeltaChangesApply(text, delta[1..], lo, pos + k);
          RetainMeans(text, delta, lo, pos);
      }
    }
  }

  // ---------- the pair as a state machine ----------

  datatype Pair = Pair(doc: Text, shared: Text, composing: bool)

  datatype Event =
    | LocalEdit(changes: seq<Change>)
    | RemoteEdit(delta: seq<DeltaItem>)
    | CompositionStart
    | CompositionEnd

  predicate InSync(s: Pair) {
    !s.composing ==> s.doc == s.shared
  }

  /** Edits are made against the text their author sees. */
  predicate Fires(s: Pair, e: Event) {
    match e
    case LocalEdit(cs) => Fits(cs, 0, |s.doc|)
    case RemoteEdit(d) => DeltaFits(d, 0, |s.shared|)
    case CompositionStart => true
    case CompositionEnd => true
  }

  function Step(s: Pair, e: Event): (r: Pair)
    requires InSync(s) && Fires(s, e)
    ensures InSync(r)
  {
    match e
    case LocalEdit(cs) =>
      s.(doc := ApplyChanges(s.doc, cs, 0), shared := if s.composing then s.shared else ApplyChanges(s.shared, cs, 0))
    case RemoteEdit(d) =>
      if s.composing then
        s.(shared := ApplyDelta(s.shared, d, 0))
      else
        DeltaChangesApply(s.doc, d, 0, 0);
        s.(doc := ApplyChanges(s.doc, DeltaChanges(d, 0), 0), shared := ApplyDelta(s.shared, d, 0))
    case CompositionStart => s.(composing := true)
    case CompositionEnd => Pair(s.doc, s.doc, false)
  }

  predicate Possible(s: Pair, es: seq<Event>)
    requires InSync(s)
    decreases |es|
  {
    es == [] || (Fires(s, es[0]) && Possible(Step(s, es[0]), es[1..]))
  }

  function Run(s: Pair, es: seq<Event>): Pair
    requires InSync(s) && Possible(s, es)
    decreases |es|
  {
    if es == [] then s else Run(Step(s, es[0]), es[1..])
  }

  /** Over every run from equal texts, the two agree whenever no composition is open. */
  lemma {:induction false} RunStaysInSync(s: Pair, es: seq<Event>)
    requires InSync(s) && Possible(s, es)
    ensures !Run(s, es).composing ==> Run(s, es).doc == Run(s, es).shared
    decreases |es|
  {
    if es != [] {
      RunStaysInSync(Step(s, es[0]), es[1..]);
    }
  }

  /** The document that the local edits alone would give. */
  function Typed(doc: Text, es: seq<Event>): Text
    requires TypedFits(doc, es)
    decreases |es|
  {
    if es == [] then doc
    else if es[0].LocalEdit? then Typed(ApplyChanges(doc, es[0].changes, 0), es[1..])
    else Typed(doc, es[1..])
  }

  predicate TypedFits(doc: Text, es: seq<Event>)
    decreases |es|
  {
    if es == [] then true
    else if es[0].LocalEdit? then
      Fits(es[0].changes, 0, |doc|) && TypedFits(ApplyChanges(doc, es[0].changes, 0), es[1..])
    else TypedFits(doc, es[1..])
  }

  /**
   * What a composition leaves behind, in both texts, is decided by the local edits alone:
   * remote edits that arrive while it is open are overwritten when it ends.
   */
  lemma {:induction false} CompositionOverwritesRemote(s: Pair, es: seq<Event>)
    requires s.composing && CompositionEnd !in es
    requires Possible(s, es + [CompositionEnd])
    ensures TypedFits(s.doc, es)
    ensures Run(s, es + [CompositionEnd]) == Pair(Typed(s.doc, es), Typed(s.doc, es), false)
    decreases |es|
  {
    var all := es + [CompositionEnd];
    if es == [] {
      assert all[1..] == [];
    } else {
      assert all[0] == es[0] && all[1..] == es[1..] + [CompositionEnd];
      CompositionOverwritesRemote(Step(s, es[0]), es[1..]);
    }
  }

  // ---------- the program ----------

  class SharedText {
    var text: Text

    constructor (initial: Text)
      ensures text == initial
    {
      text := initial;
    }

    method Delete(index: nat, length: nat)
      requires index + length <= |text|
      modifies this
      ensures text == old(text[..index] + text[index + length..])
    {
      text := text[..index] + text[index + length..];
    }

    method Insert(index: nat, t: Text)
      requires index <= |text|
      modifies this
      ensures text == old(text[..index] + t + text[index..])
    {
      text := text[..index] + t + text[index..];
    }
  }

  class EditorView {
    var doc: Text
    var composing: bool

    constructor (initial: Text)
      ensures doc == initial && !composing
    {
      doc := initial;
      composing := false;
    }
  }

  /** Builds the old-coordinate change set for a shared-text event. */
  method ChangesForDelta(delta: seq<DeltaItem>) returns (changes: seq<Change>)
    ensures changes == DeltaChanges(delta, 0)
    ensures forall text: Text :: DeltaFits(delta, 0, |text|) ==>
                             Fits(changes, 0, |text|) && ApplyChanges(text, changes, 0) == ApplyDelta(text, delta, 0)
  {
    changes := [];
    var pos := 0;
    for i := 0 to |delta|
      invariant pos >= 0
      invariant changes + DeltaChanges(delta[i..], pos) == DeltaChanges(delta, 0)
    {
      var d := delta[i];
      assert delta[i..][0] == d && delta[i..][1..] == delta[i + 1..];
      match d
      case InsertItem(t) =>
        changes := changes + [Change(pos, pos, t)];
      case DeleteItem(count) =>
        changes := changes + [Change(pos, pos + count, [])];
        pos := pos + count;
      case RetainItem(count) =>
        pos := pos + count;
    }
    assert delta[|delta|..] == [] && changes + [] == changes;
    assert changes == DeltaChanges(delta, 0);
    forall text: Text | DeltaFits(delta, 0, |text|)
      ensures Fits(changes, 0, |text|) && ApplyChanges(text, changes, 0) == ApplyDelta(text, delta, 0)
    {
      DeltaChangesApply(text, delta, 0, 0);
      assert text[0..0] == [];
    }
  }

  /** The shared text while a change set is replayed: the part already rewritten, then the rest of the old text. */
  predicate Replaying(text: Text, before: Text, doc: Text, lo: nat, adj: int) {
    lo <= |doc| && lo + adj == |before| && text == before + doc[lo..]
  }

  /** Where a range sits in the half-replayed text. */
  lemma ReplayRange(text: Text, before: Text, doc: Text, lo: nat, adj: int, c: Change)
    requires Replaying(text, before, doc, lo, adj) && lo <= c.from <= c.to <= |doc|
    ensures 0 <= c.from + adj <= c.to + adj <= |text|
    ensures text[..c.from + adj] == before + doc[lo..c.from]
    ensures text[c.to + adj..] == doc[c.to..]
  {
    assert doc[lo..][c.from - lo..] == doc[c.from..];
  }

  /** Deleting the range and inserting its replacement there moves the replay past it. */
  lemma ReplayStep(text: Text, before: Text, doc: Text, lo: nat, adj: int, c: Change, after: Text)
    requires Replaying(text, before, doc, lo, adj) && lo <= c.from <= c.to <= |doc|
    requires 0 <= c.from + adj <= c.to + adj <= |text|
    requires after == text[..c.from + adj] + c.insert + text[c.to + adj..]
    ensures Replaying(after, before + doc[lo..c.from] + c.insert, doc, c.to, adj + |c.insert| - (c.to - c.from))
  {
    ReplayRange(text, before, doc, lo, adj, c);
  }

  lemma PlanMoves(before: Text, kept: Text, insert: Text, rest: Text)
    ensures before + (kept + insert + rest) == (before + kept + insert) + rest
  {
  }

  lemma {:induction false} FitsBound(cs: seq<Change>, lo: nat, n: nat)
    requires Fits(cs, lo, n)
    ensures lo <= n
  {
    if cs != [] {
      FitsBound(cs[1..], cs[0].to, n);
    }
  }

  /** The plugin: the shared text observes it, and it observes the shared text. */
  class SyncIME {
    const view: EditorView
    const ytext: SharedText

    constructor (v: EditorView, y: SharedText)
      ensures view == v && ytext == y
    {
      view, ytext := v, y;
    }

    function State(): Pair
      reads view, ytext
    {
      Pair(view.doc, ytext.text, view.composing)
    }

    /** The editor applies one transaction and tells the plugin about it. */
    method Dispatch(changes: seq<Change>, fromYjs: bool)
      requires Fits(changes, 0, |view.doc|)
      requires !fromYjs && !view.composing ==> view.doc == ytext.text
      modifies view`doc, ytext
      ensures view.doc == ApplyChanges(old(view.doc), changes, 0)
      ensures ytext.text ==
              if fromYjs || view.composing then old(ytext.text) else ApplyChanges(old(ytext.text), changes, 0)
    {
      view.doc := ApplyChanges(view.doc, changes, 0);
      Update(changes, fromYjs);
    }

    /** Replays a local change set on the shared text range by range, shifting each by `adj`. */
    method Update(changes: seq<Change>, fromYjs: bool)
      requires !fromYjs && !view.composing ==> Fits(changes, 0, |ytext.text|)
      modifies ytext
      ensures ytext.text ==
              if fromYjs || view.composing then old(ytext.text) else ApplyChanges(old(ytext.text), changes, 0)
    {
      if !ShouldSyncToYjs(view.composing, changes != [], fromYjs) {
        return;
      }
      ghost var doc := ytext.text;
      ghost var before: Text := [];
      ghost var lo := 0;
      var adj := 0;
      for i := 0 to |changes|
        invariant lo >= 0 && Fits(changes[i..], lo, |doc|)
        invariant Replaying(ytext.text, before, doc, lo, adj)
        invariant before + ApplyChanges(doc, changes[i..], lo) == ApplyChanges(doc, changes, 0)
      {
        var c := changes[i];
        assert changes[i..] == [c] + changes[i + 1..];
        FitsBound(changes[i + 1..], c.to, |doc|);
        ApplyFirst(doc, c, changes[i + 1..], lo);
        ghost var text := ytext.text;
        ReplayRange(text, before, doc, lo, adj, c);
        ReplaceRange(c, adj);
        ReplayStep(text, before, doc, lo, adj, c, ytext.text);
        PlanMoves(before, doc[lo..c.from], c.insert, ApplyChanges(doc, changes[i + 1..], c.to));
        before := before + doc[lo..c.from] + c.insert;
        lo := c.to;
        adj := adj + |c.insert| - (c.to - c.from);
      }
      assert changes[|changes|..] == [];
    }

    /** The two text operations for one range; either is skipped when it would do nothing. */
    method ReplaceRange(c: Change, adj: int)
      requires c.from <= c.to && 0 <= c.from + adj && c.to + adj <= |ytext.text|
      modifies ytext
      ensures ytext.text == old(ytext.text[..c.from + adj] + c.insert + ytext.text[c.to + adj..])
    {
      ghost var l, r := ytext.text[..c.from + adj], ytext.text[c.to + adj..];
      if c.from != c.to {
        ytext.Delete(c.from + adj, c.to - c.from);
      }
      assert ytext.text == l + r;
      assert (l + r)[..c.from + adj] == l && (l + r)[c.from + adj..] == r;
      if |c.insert| > 0 {
        ytext.Insert(c.from + adj, c.insert);
      }
    }

    /** The shared text's observer; `own` marks a transaction this plugin made itself. */
    method Observe(delta: seq<DeltaItem>, own: bool)
      requires !own && !view.composing ==> DeltaFits(delta, 0, |view.doc|)
      modifies view`doc, ytext
      ensures ytext.text == old(ytext.text)
      ensures view.doc ==
              if own || view.composing then old(view.doc) else ApplyDelta(old(view.doc), delta, 0)
    {
      if own {
        return;
      }
      if view.composing {
        return;
      }
      var changes := ChangesForDelta(delta);
      if |changes| > 0 {
        Dispatch(changes, true);
      }
    }

    /** Writes the difference between the two texts into the shared one as a single replacement. */
    method FlushLocalToYtext()
      modifies ytext
      ensures ytext.text == view.doc
    {
      var cmText, current := view.doc, ytext.text;
      if current == cmText {
        return;
      }
      var d := DiffEnds(current, cmText);
      if |d.oldMiddle| > 0 {
        ytext.Delete(d.start, |d.oldMiddle|);
      }
      if |d.newMiddle| > 0 {
        ytext.Insert(d.start, d.newMiddle);
      }
      var l, r := current[..d.start], current[d.start + |d.oldMiddle|..];
      assert current == l + d.oldMiddle + r;
      assert (l + r)[..d.start] == l && (l + r)[d.start..] == r;
    }

    // ----- what can happen to the pair -----

    method OnLocalEdit(changes: seq<Change>)
      requires InSync(State()) && Fires(State(), LocalEdit(changes))
      modifies view`doc, ytext
      ensures State() == Step(old(State()), LocalEdit(changes))
    {
      Dispatch(changes, false);
    }

    method OnRemoteEdit(delta: seq<DeltaItem>)
      requires InSync(State()) && Fires(State(), RemoteEdit(delta))
      modifies view`doc, ytext
      ensures State() == Step(old(State()), RemoteEdit(delta))
    {
      DeltaChangesApply(ytext.text, delta, 0, 0);
      ytext.text := ApplyDelta(ytext.text, delta, 0);
      Observe(delta, false);
    }

    method OnCompositionStart()
      requires InSync(State())
      modifies view
      ensures State() == Step(old(State()), CompositionStart)
    {
      view.composing := true;
    }

    method OnCompositionEnd()
      requires InSync(State())
      modifies view, ytext
      ensures State() == Step(old(State()), CompositionEnd)
    {
      view.composing := false;
      FlushLocalToYtext();
    }
  }
}
