/**
 * Consequences of the block-wise account of the parser: how many records a
 * reply can yield, and that a reply without a trigger line yields none.
 */
module InsightLaws {
  import opened Text
  import opened Insights
  import opened ParserReference

  lemma NoTriggerBefore(ks: seq<LineKind>)
    ensures CountTriggers(ks) == CountTriggers(ks[FirstTrigger(ks)..])
  {
    var k := FirstTrigger(ks);
    assert ks == ks[..k] + ks[k..];
    CountAppend(ks[..k], ks[k..]);
    assert forall i :: 0 <= i < k ==> !ks[..k][i].Trigger? by {
      forall i | 0 <= i < k ensures !ks[..k][i].Trigger? {
        assert ks[..k][i] == ks[i];
      }
    }
    CountNone(ks[..k]);
  }

  /**
   * With `t` trigger lines the reference result is empty when `t` is zero
   * and otherwise holds between `t - 1` and `t + 1` records: one per block,
   * the last only with a title, plus possibly a title-less preamble record.
   */
  lemma ReferenceCount(ks: seq<LineKind>)
    ensures CountTriggers(ks) == 0 ==> Reference(ks) == []
    ensures CountTriggers(ks) > 0 ==> CountTriggers(ks) - 1 <= |Reference(ks)| <= CountTriggers(ks) + 1
  {
    var k := FirstTrigger(ks);
    NoTriggerBefore(ks);
    assert |ks[k..]| == 0 || ks[k..][0].Trigger?;
    var bs := Blocks(ks[k..]);
    assert |bs| == CountTriggers(ks);
  }

  /** The record count of a parse, bounded by the number of trigger lines. */
  lemma ParseLinesCount(lines: seq<string>)
    ensures CountTriggers(Lex(lines)) == 0 ==> ParseLines(lines) == []
    ensures CountTriggers(Lex(lines)) > 0 ==>
      CountTriggers(Lex(lines)) - 1 <= |ParseLines(lines)| <= CountTriggers(Lex(lines)) + 1
  {
    ParseLinesIsReference(lines);
    ReferenceCount(Lex(lines));
  }

  /** A reply none of whose stripped lines is a trigger yields no insight. */
  lemma NoTriggerNoInsights(text: string)
    requires forall i :: 0 <= i < |Split(text, '\n')| ==> !IsTrigger(Strip(Split(text, '\n')[i]))
    ensures Parse(text) == []
  {
    var lines := Split(text, '\n');
    assert Parse(text) == ParseLines(lines) by {
      ParseIsFoldOfLines(text);
    }
    assert CountTriggers(Lex(lines)) == 0 by {
      NoTriggerLines(lines);
    }
    ParseLinesCount(lines);
  }

  lemma NoTriggerLines(lines: seq<string>)
    requires forall i :: 0 <= i < |lines| ==> !IsTrigger(Strip(lines[i]))
    ensures CountTriggers(Lex(lines)) == 0
  {
    var ks := Lex(lines);
    forall i | 0 <= i < |ks| ensures !ks[i].Trigger? {
      assert ks[i] == Classify(Strip(lines[i]));
    }
    CountNone(ks);
  }
}
