/**
 * A second, declarative account of what the insight parser returns, and the
 * proof that the fold in `Insights` computes exactly it.
 *
 * Each line is first classified (`KindOf`). The classified lines are cut at
 * every trigger: the lines before the first trigger form the preamble; each
 * trigger with the non-trigger lines after it forms a block. Within a
 * segment each field takes the value of the last line that sets it. Every
 * block becomes one record, in order; the preamble record is emitted only
 * when some field line made it non-empty and a trigger follows; the last
 * block is emitted only with a non-empty title.
 */
module ParserReference {
  import opened Wrappers
  import opened Text
  import opened Insights

  /** `f` applied to each element. */
  function MapSeq<A, B>(f: A -> B, xs: seq<A>): (ys: seq<B>)
    ensures |ys| == |xs|
    ensures forall i :: 0 <= i < |xs| ==> ys[i] == f(xs[i])
  {
    seq(|xs|, i requires 0 <= i < |xs| => f(xs[i]))
  }

  lemma MapTail<A, B>(f: A -> B, xs: seq<A>)
    requires |xs| > 0
    ensures MapSeq(f, xs)[0] == f(xs[0]) && MapSeq(f, xs)[1..] == MapSeq(f, xs[1..])
  {
  }

  lemma MapAppend<A, B>(f: A -> B, a: seq<A>, b: seq<A>)
    ensures MapSeq(f, a + b) == MapSeq(f, a) + MapSeq(f, b)
  {
    assert forall i :: 0 <= i < |a + b| ==> (a + b)[i] == if i < |a| then a[i] else b[i - |a|];
  }

  lemma MapOne<A, B>(f: A -> B, x: A)
    ensures MapSeq(f, [x]) == [f(x)]
  {
  }

  lemma MapTwo<A, B>(f: A -> B, x: A, y: A)
    ensures MapSeq(f, [x, y]) == [f(x), f(y)]
  {
  }

  /** The classified lines. */
  function Lex(lines: seq<string>): (ks: seq<LineKind>)
    ensures |ks| == |lines|
    ensures forall i :: 0 <= i < |lines| ==> ks[i] == KindOf(lines[i])
  {
    MapSeq(KindOf, lines)
  }

  /** The parser's loop, over classified lines. */
  function Fold(s: ParserState, ks: seq<LineKind>): ParserState
    decreases |ks|
  {
    if |ks| == 0 then s else Fold(Apply(s, ks[0]), ks[1..])
  }

  /** Index of the first trigger, `|ks|` when there is none. */
  function FirstTrigger(ks: seq<LineKind>): (k: nat)
    ensures k <= |ks|
    ensures forall i :: 0 <= i < k ==> !ks[i].Trigger?
    ensures k < |ks| ==> ks[k].Trigger?
  {
    if |ks| == 0 then 0
    else if ks[0].Trigger? then 0
    else 1 + FirstTrigger(ks[1..])
  }

  /** Number of trigger lines. */
  function CountTriggers(ks: seq<LineKind>): nat {
    if |ks| == 0 then 0
    else (if ks[0].Trigger? then 1 else 0) + CountTriggers(ks[1..])
  }

  function ExplanationIn(k: LineKind): Option<string> {
    if k.SetExplanation? then Some(k.text) else None
  }

  function ChartIn(k: LineKind): Option<string> {
    if k.SetChart? then Some(k.text) else None
  }

  function ColumnsIn(k: LineKind): Option<seq<string>> {
    if k.SetColumns? then Some(k.names) else None
  }

  function TipIn(k: LineKind): Option<string> {
    if k.SetTip? then Some(k.text) else None
  }

  /** The value the last line of `seg` that sets a field gives it, if any line does. */
  function Latest<T>(seg: seq<LineKind>, get: LineKind -> Option<T>): Option<T>
    decreases |seg|
  {
    if |seg| == 0 then None
    else
      var last := get(seg[|seg| - 1]);
      if last.Some? then last else Latest(seg[..|seg| - 1], get)
  }

  /**
   * `Latest` is present exactly when some line sets the field, and then it
   * is that line's value and no later line sets the field.
   */
  lemma LatestIsLast<T>(seg: seq<LineKind>, get: LineKind -> Option<T>)
    ensures Latest(seg, get).None? <==> forall i :: 0 <= i < |seg| ==> get(seg[i]).None?
    ensures Latest(seg, get).Some? ==>
      exists i :: 0 <= i < |seg| && get(seg[i]) == Latest(seg, get) && forall j :: i < j < |seg| ==> get(seg[j]).None?
  {
    LatestNone(seg, get);
    LatestSome(seg, get);
  }

  lemma {:induction false} LatestNone<T>(seg: seq<LineKind>, get: LineKind -> Option<T>)
    ensures Latest(seg, get).None? <==> forall i :: 0 <= i < |seg| ==> get(seg[i]).None?
    decreases |seg|
  {
    if |seg| > 0 && get(seg[|seg| - 1]).None? {
      var front := seg[..|seg| - 1];
      LatestNone(front, get);
      assert forall i :: 0 <= i < |seg| - 1 ==> front[i] == seg[i];
    }
  }

  lemma {:induction false} LatestSome<T>(seg: seq<LineKind>, get: LineKind -> Option<T>)
    ensures Latest(seg, get).Some? ==>
      exists i :: 0 <= i < |seg| && get(seg[i]) == Latest(seg, get) && forall j :: i < j < |seg| ==> get(seg[j]).None?
    decreases |seg|
  {
    if |seg| > 0 && get(seg[|seg| - 1]).None? {
      var front := seg[..|seg| - 1];
      LatestSome(front, get);
      assert forall i :: 0 <= i < |seg| - 1 ==> front[i] == seg[i];
    }
  }

  function Override<T>(base: Option<T>, latest: Option<T>): Option<T> {
    if latest.Some? then latest else base
  }

  /** The record a segment of field lines builds on top of `base`. */
  function Fields(seg: seq<LineKind>, base: Insight): Insight {
    Insight(
      base.title,
      Override(base.explanation, Latest(seg, ExplanationIn)),
      Override(base.chart, Latest(seg, ChartIn)),
      Override(base.columns, Latest(seg, ColumnsIn)),
      Override(base.tip, Latest(seg, TipIn)))
  }

  /** One record per trigger, each built from its block, in order. */
  function Blocks(ks: seq<LineKind>): (r: seq<Insight>)
    requires |ks| == 0 || ks[0].Trigger?
    ensures |r| == CountTriggers(ks)
    ensures forall i :: 0 <= i < |r| ==> r[i].title.Some?
    decreases |ks|
  {
    if |ks| == 0 then []
    else
      var k := 1 + FirstTrigger(ks[1..]);
      assert k < |ks| ==> ks[k] == ks[1..][k - 1];
      CountSplit(ks, k);
      [Fields(ks[1..k], Opened(ks[0].title))] + Blocks(ks[k..])
  }

  /** The reference result for a sequence of classified lines. */
  function Reference(ks: seq<LineKind>): seq<Insight> {
    var k := FirstTrigger(ks);
    var preamble := Fields(ks[..k], NoRecord);
    var blocks := Blocks(ks[k..]);
    if |blocks| == 0 then []
    else
      var last := blocks[|blocks| - 1];
      Closed(preamble) + blocks[..|blocks| - 1] + (if HasTitle(last) then [last] else [])
  }

  // ---------------------------------------------------------------- proof

  lemma {:induction false} RunIsFold(s: ParserState, lines: seq<string>)
    ensures Run(s, lines) == Fold(s, Lex(lines))
    decreases |lines|
  {
    if |lines| > 0 {
      RunIsFold(Step(s, lines[0]), lines[1..]);
      LexTail(lines);
    }
  }

  lemma LexTail(lines: seq<string>)
    requires |lines| > 0
    ensures Lex(lines)[0] == KindOf(lines[0]) && Lex(lines)[1..] == Lex(lines[1..])
  {
    MapTail(KindOf, lines);
  }

  lemma {:induction false} FoldAppend(s: ParserState, a: seq<LineKind>, b: seq<LineKind>)
    ensures Fold(s, a + b) == Fold(Fold(s, a), b)
    decreases |a|
  {
    if |a| == 0 {
      assert a + b == b;
    } else {
      assert (a + b)[0] == a[0] && (a + b)[1..] == a[1..] + b;
      FoldAppend(Apply(s, a[0]), a[1..], b);
    }
  }

  lemma {:induction false} CountNone(ks: seq<LineKind>)
    requires forall i :: 0 <= i < |ks| ==> !ks[i].Trigger?
    ensures CountTriggers(ks) == 0
    decreases |ks|
  {
    if |ks| > 0 {
      CountNone(ks[1..]);
    }
  }

  lemma {:induction false} CountAppend(a: seq<LineKind>, b: seq<LineKind>)
    ensures CountTriggers(a + b) == CountTriggers(a) + CountTriggers(b)
    decreases |a|
  {
    if |a| == 0 {
      assert a + b == b;
    } else {
      assert (a + b)[0] == a[0] && (a + b)[1..] == a[1..] + b;
      CountAppend(a[1..], b);
    }
  }

  lemma CountSplit(ks: seq<LineKind>, k: nat)
    requires 1 <= k <= |ks|
    requires forall i :: 1 <= i < k ==> !ks[i].Trigger?
    ensures CountTriggers(ks) == (if ks[0].Trigger? then 1 else 0) + CountTriggers(ks[k..])
  {
    assert ks[1..] == ks[1..k] + ks[k..];
    CountAppend(ks[1..k], ks[k..]);
    CountNone(ks[1..k]);
  }

  /** One field line sets its one key; the others keep the last value set. */
  lemma ApplyField(d: seq<Insight>, seg: seq<LineKind>, base: Insight, k: LineKind)
    requires !k.Trigger?
    ensures Apply(ParserState(d, Fields(seg, base)), k) == ParserState(d, Fields(seg + [k], base))
  {
    var seg' := seg + [k];
    assert seg'[..|seg'| - 1] == seg && seg'[|seg'| - 1] == k;
  }

  /** A run of field lines only fills in fields. */
  lemma {:induction false} FoldFields(d: seq<Insight>, base: Insight, seg: seq<LineKind>)
    requires forall i :: 0 <= i < |seg| ==> !seg[i].Trigger?
    ensures Fold(ParserState(d, base), seg) == ParserState(d, Fields(seg, base))
    decreases |seg|
  {
    if |seg| == 0 {
      assert Fields(seg, base) == base;
    } else {
      var n := |seg| - 1;
      assert seg == seg[..n] + [seg[n]];
      FoldFields(d, base, seg[..n]);
      FoldAppend(ParserState(d, base), seg[..n], [seg[n]]);
      assert Fold(ParserState(d, Fields(seg[..n], base)), [seg[n]])
          == Apply(ParserState(d, Fields(seg[..n], base)), seg[n]);
      ApplyField(d, seg[..n], base, seg[n]);
    }
  }

  /** The first block: its trigger closes `c`, its field lines fill in the new record. */
  lemma FoldFirstBlock(d: seq<Insight>, c: Insight, ks: seq<LineKind>)
    requires |ks| > 0 && ks[0].Trigger?
    ensures
      var k := 1 + FirstTrigger(ks[1..]);
      Fold(ParserState(d, c), ks)
        == Fold(ParserState(d + Closed(c), Fields(ks[1..k], Opened(ks[0].title))), ks[k..])
  {
    var k := 1 + FirstTrigger(ks[1..]);
    var s1 := ParserState(d + Closed(c), Opened(ks[0].title));
    assert Fold(ParserState(d, c), ks) == Fold(s1, ks[1..]);
    FirstSegment(ks);
    FoldAppend(s1, ks[1..k], ks[k..]);
    FoldFields(d + Closed(c), Opened(ks[0].title), ks[1..k]);
  }

  /** The lines after a trigger up to the next one hold no trigger. */
  lemma FirstSegment(ks: seq<LineKind>)
    requires |ks| > 0
    ensures
      var k := 1 + FirstTrigger(ks[1..]);
      && ks[1..] == ks[1..k] + ks[k..]
      && forall i :: 0 <= i < |ks[1..k]| ==> !ks[1..k][i].Trigger?
  {
    var k := 1 + FirstTrigger(ks[1..]);
    assert ks[1..] == ks[1..k] + ks[k..];
    forall i | 0 <= i < k - 1 ensures !ks[1..k][i].Trigger? {
      assert ks[1..k][i] == ks[1..][i];
    }
  }

  lemma BlocksCons(ks: seq<LineKind>)
    requires |ks| > 0 && ks[0].Trigger?
    ensures
      var k := 1 + FirstTrigger(ks[1..]);
      && (k < |ks| ==> ks[k..][0].Trigger?)
      && Blocks(ks) == [Fields(ks[1..k], Opened(ks[0].title))] + Blocks(ks[k..])
  {
    NextBlockStart(ks);
  }

  /** The block after the first starts at the next trigger. */
  lemma NextBlockStart(ks: seq<LineKind>)
    requires |ks| > 0
    ensures var k := 1 + FirstTrigger(ks[1..]); k < |ks| ==> ks[k..][0].Trigger?
  {
    var k := 1 + FirstTrigger(ks[1..]);
    if k < |ks| {
      assert ks[k..][0] == ks[1..][k - 1];
    }
  }

  lemma AllButLastOfCons<T>(d: seq<T>, head: T, rest: seq<T>)
    requires |rest| > 0
    ensures d + [head] + rest[..|rest| - 1] == d + ([head] + rest)[..|rest|]
    ensures ([head] + rest)[|rest|] == rest[|rest| - 1]
  {
  }

  lemma OnlyOfSingle<T>(d: seq<T>, head: T)
    ensures [head][..0] == [] && [head][0] == head && d + [head][..0] == d
  {
  }

  /** The record of the first block of `ks`. */
  function FirstBlock(ks: seq<LineKind>): Insight
    requires |ks| > 0 && ks[0].Trigger?
  {
    Fields(ks[1..1 + FirstTrigger(ks[1..])], Opened(ks[0].title))
  }

  /** What folding over `ks` from `ParserState(d, c)` is claimed to give. */
  function BlocksResult(d: seq<Insight>, c: Insight, ks: seq<LineKind>): ParserState
    requires |ks| > 0 && ks[0].Trigger?
  {
    var bs := Blocks(ks);
    ParserState(d + Closed(c) + bs[..|bs| - 1], bs[|bs| - 1])
  }

  /** Folding over blocks: each trigger closes the record before it. */
  lemma {:induction false} FoldBlocks(d: seq<Insight>, c: Insight, ks: seq<LineKind>)
    requires |ks| > 0 && ks[0].Trigger?
    ensures Fold(ParserState(d, c), ks) == BlocksResult(d, c, ks)
    decreases |ks|
  {
    var k := 1 + FirstTrigger(ks[1..]);
    FoldFirstBlock(d, c, ks);
    BlocksCons(ks);
    if k < |ks| {
      FoldBlocks(d + Closed(c), FirstBlock(ks), ks[k..]);
      ResultOfCons(d + Closed(c), FirstBlock(ks), Blocks(ks[k..]), Blocks(ks));
    } else {
      assert ks[k..] == [];
      BlocksResultLast(d, c, ks);
    }
  }

  lemma ResultOfCons(d: seq<Insight>, head: Insight, rest: seq<Insight>, bs: seq<Insight>)
    requires |rest| > 0 && bs == [head] + rest && head.title.Some?
    ensures ParserState(d + Closed(head) + rest[..|rest| - 1], rest[|rest| - 1])
         == ParserState(d + bs[..|bs| - 1], bs[|bs| - 1])
  {
    assert Closed(head) == [head];
    AllButLastOfCons(d, head, rest);
  }

  lemma BlocksResultLast(d: seq<Insight>, c: Insight, ks: seq<LineKind>)
    requires |ks| > 0 && ks[0].Trigger?
    requires 1 + FirstTrigger(ks[1..]) == |ks|
    requires Blocks(ks) == [FirstBlock(ks)] + Blocks(ks[|ks|..])
    ensures BlocksResult(d, c, ks) == ParserState(d + Closed(c), FirstBlock(ks))
  {
    var head := FirstBlock(ks);
    assert |ks[|ks|..]| == 0;
    assert Blocks(ks) == [head] by {
      EmptyAppend([head]);
    }
    OnlyOfSingle(d + Closed(c), head);
  }

  /** The loop and the block-wise account agree on every classified input. */
  lemma FoldIsReference(ks: seq<LineKind>)
    ensures Finish(Fold(Start, ks)) == Reference(ks)
  {
    var k := FirstTrigger(ks);
    var pre := Fields(ks[..k], NoRecord);
    assert Fold(Start, ks) == Fold(ParserState([], pre), ks[k..]) by {
      SplitAt(ks, k);
      FoldAppend(Start, ks[..k], ks[k..]);
      FoldFields([], NoRecord, ks[..k]);
    }
    if k < |ks| {
      FoldBlocks([], pre, ks[k..]);
      EmptyAppend(Closed(pre));
    } else {
      assert ks[k..] == [];
      assert !HasTitle(pre);
    }
  }

  /** The parser computes the reference result of its classified lines. */
  lemma ParseLinesIsReference(lines: seq<string>)
    ensures ParseLines(lines) == Reference(Lex(lines))
  {
    RunIsFold(Start, lines);
    FoldIsReference(Lex(lines));
  }
}
