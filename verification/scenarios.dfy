/**
 * Concrete replies and what the parser makes of them.
 */
module ParseScenarios {
  import opened Wrappers
  import opened Text
  import opened Insights
  import opened ParserReference
  import opened InsightFormat

  const Revenue := Insight(
    Some("Revenue Growth"), Some("Sales up 20%"), Some("bar"), Some(["Region", "Sales"]), Some("Expand top regions"))

  lemma StarFree(s: string)
    requires '*' !in s
    ensures NoDoubleStar(s)
  {
  }

  lemma RevenueSerialisable()
    ensures Serialisable(Revenue)
  {
    RevenueValuesClean();
    RevenueNamesClean();
    StarFree("Revenue Growth");
  }

  lemma RevenueValuesClean()
    ensures CleanValue("Revenue Growth") && CleanValue("Sales up 20%")
    ensures CleanValue("bar") && CleanValue("Expand top regions")
  {
    CleanHeadValues();
    CleanTailValues();
  }

  lemma CleanHeadValues()
    ensures CleanValue("Revenue Growth") && CleanValue("Sales up 20%")
  {
  }

  lemma CleanTailValues()
    ensures CleanValue("bar") && CleanValue("Expand top regions")
  {
  }

  lemma RevenueNamesClean()
    ensures CleanName("Region") && CleanName("Sales")
  {
  }

  const RevenueTitle := "Title: Revenue Growth"
  const RevenueExplanation := "Explanation: Sales up 20%"
  const RevenueChart := "Chart: bar"
  const RevenueColumns := "Columns: Region, Sales"
  const RevenueTip := "Tip: Expand top regions"

  lemma RevenueFieldLines()
    ensures FieldLine("Title:", "Revenue Growth") == RevenueTitle
    ensures FieldLine("Explanation:", "Sales up 20%") == RevenueExplanation
    ensures FieldLine("Chart:", "bar") == RevenueChart
    ensures FieldLine("Tip:", "Expand top regions") == RevenueTip
  {
    RevenueTitleLine();
    RevenueExplanationLine();
    RevenueChartLine();
    RevenueTipLine();
  }

  lemma RevenueTitleLine()
    ensures FieldLine("Title:", "Revenue Growth") == RevenueTitle
  {
  }

  lemma RevenueExplanationLine()
    ensures FieldLine("Explanation:", "Sales up 20%") == RevenueExplanation
  {
  }

  lemma RevenueChartLine()
    ensures FieldLine("Chart:", "bar") == RevenueChart
  {
  }

  lemma RevenueTipLine()
    ensures FieldLine("Tip:", "Expand top regions") == RevenueTip
  {
  }

  lemma RevenueColumnsLine()
    ensures ColumnsLine(Some(["Region", "Sales"])) == [RevenueColumns]
  {
    assert Join(["Region", "Sales"], ", ") == "Region, Sales" by {
      assert ["Region", "Sales"][1..] == ["Sales"];
    }
    assert FieldLine("Columns:", "Region, Sales") == RevenueColumns;
  }

  lemma RevenueLines()
    ensures Serialise([Revenue]) == [RevenueTitle, RevenueExplanation, RevenueChart, RevenueColumns, RevenueTip]
  {
    RevenueFieldLines();
    RevenueColumnsLine();
    assert Serialise([Revenue]) == Lines(Revenue) + Serialise([]);
  }

  /** The reply text: the five lines joined by newlines. */
  const RevenueReplyText :=
    RevenueTitle + "\n" + RevenueExplanation + "\n" + RevenueChart + "\n" + RevenueColumns + "\n" + RevenueTip

  lemma RevenueText()
    ensures Render([Revenue]) == RevenueReplyText
  {
    RevenueLines();
    JoinFive(RevenueTitle, RevenueExplanation, RevenueChart, RevenueColumns, RevenueTip, "\n");
  }

  /** Five pieces joined by `sep`. */
  lemma JoinFive(a: string, b: string, c: string, d: string, e: string, sep: string)
    ensures Join([a, b, c, d, e], sep) == a + sep + b + sep + c + sep + d + sep + e
  {
    var j4 := d + sep + e;
    var j3 := c + sep + j4;
    var j2 := b + sep + j3;
    assert Join([d, e], sep) == j4 by {
      JoinTwo(d, e, sep);
    }
    assert Join([c, d, e], sep) == j3 by {
      assert [c, d, e][1..] == [d, e];
    }
    assert Join([b, c, d, e], sep) == j2 by {
      assert [b, c, d, e][1..] == [c, d, e];
    }
    assert Join([a, b, c, d, e], sep) == a + sep + j2 by {
      assert [a, b, c, d, e][1..] == [b, c, d, e];
    }
    AppendAssoc(c + sep, d + sep, e);
    AppendAssoc(b + sep, c + sep + d + sep, e);
    AppendAssoc(a + sep, b + sep + c + sep + d + sep, e);
  }

  /** The reply layout the prompt asks for gives back exactly one record with all five fields. */
  lemma RevenueReply()
    ensures Parse(RevenueReplyText) == [Revenue]
  {
    RevenueSerialisable();
    RevenueText();
    ParseRender([Revenue]);
  }

  /** Two titles in a row give two records that hold only their titles. */
  lemma BackToBackTitles(a: string, b: string)
    requires a != "" && CleanValue(a) && NoDoubleStar(a)
    requires b != "" && CleanValue(b) && NoDoubleStar(b)
    ensures Parse(FieldLine("Title:", a) + "\n" + FieldLine("Title:", b)) == [Opened(a), Opened(b)]
  {
    var la := FieldLine("Title:", a);
    var lb := FieldLine("Title:", b);
    assert '\n' !in la && '\n' !in lb by {
      FieldLineFree("Title:", a);
      FieldLineFree("Title:", b);
    }
    assert [KindOf(la), KindOf(lb)] == [Trigger(a), Trigger(b)] by {
      KindOfTitleLine(a);
      KindOfTitleLine(b);
    }
    ParseTwoLines(la, lb);
    FinishTwoTitles(a, b);
  }

  lemma FinishTwoTitles(a: string, b: string)
    requires b != ""
    ensures Finish(Fold(Start, [Trigger(a), Trigger(b)])) == [Opened(a), Opened(b)]
  {
    var s1 := ParserState([], Opened(a));
    assert [Trigger(a), Trigger(b)] == [Trigger(a)] + [Trigger(b)];
    FoldAppend(Start, [Trigger(a)], [Trigger(b)]);
    FoldOne(Start, Trigger(a));
    FoldOne(s1, Trigger(b));
    assert IsOpen(Opened(a)) && HasTitle(Opened(b));
    assert Closed(Opened(a)) == [Opened(a)];
  }

  /** An empty reply yields no records. */
  lemma EmptyReply()
    ensures Parse("") == []
  {
    OneLine("");
    EmptyLine();
  }

  lemma EmptyLine()
    ensures ParseLines([""]) == []
  {
    BlankRun();
    NothingAtStart();
  }

  lemma BlankRun()
    ensures Run(Start, [""]) == Start
  {
    assert AllSpace([""][0]);
    RunBlank(Start, [""]);
  }

  lemma NothingAtStart()
    ensures Finish(Start) == []
  {
  }

  /** A one-line reply: its lines are just the reply. */
  lemma OneLine(text: string)
    requires '\n' !in text
    ensures Parse(text) == ParseLines([text])
  {
    ParseIsFoldOfLines(text);
    SplitWithoutSep(text, '\n');
  }

  /**
   * A reply that is a single trigger line yields the record of that title,
   * or nothing when the title is empty.
   */
  lemma SingleTrigger(line: string)
    requires '\n' !in line && Trimmed(line) && IsTrigger(line)
    ensures Parse(line) == if TitleOf(line) == "" then [] else [Opened(TitleOf(line))]
  {
    OneLine(line);
    RunSingle(Start, line);
    assert Strip(line) == line by {
      StripOfTrimmed(line);
    }
    FinishFirstTitle(TitleOf(line));
  }

  /** The first trigger closes nothing and leaves its record open. */
  lemma FinishFirstTitle(t: string)
    ensures Finish(ParserState(Start.emitted + Closed(Start.current), Opened(t)))
         == if t == "" then [] else [Opened(t)]
  {
    assert Closed(NoRecord) == [];
  }

  /** Character facts about the line `1. Revenue`. */
  lemma NumberedLineChars()
    ensures '\n' !in "1. Revenue" && ':' !in "1. Revenue" && '*' !in "1. Revenue"
    ensures Trimmed("1. Revenue") && IsDigit("1. Revenue"[0]) && '.' in "1. Revenue"[..3]
  {
    assert "1. Revenue"[..3] == "1. ";
  }

  /**
   * A numbered line is a trigger, and with no colon in it the whole stripped
   * line, number included, becomes the title.
   */
  lemma NumberedTitle()
    ensures Parse("1. Revenue") == [Opened("1. Revenue")]
  {
    var line := "1. Revenue";
    NumberedLineChars();
    assert IsTrigger(line);
    assert TitleOf(line) == line by {
      StarFree(line);
      RemoveDoubleStarsOfFree(line);
      StripOfTrimmed(line);
    }
    SingleTrigger(line);
  }

  /** Character facts about the line `Title:`. */
  lemma EmptyTitleChars()
    ensures '\n' !in "Title:" && '*' !in "Title:" && Trimmed("Title:")
    ensures "Title:" == "Title" + [':'] + "" && ':' !in "Title"
    ensures StartsCaseless("Title:", "title:")
  {
  }

  /** `Title:` alone is a trigger line with an empty title. */
  lemma EmptyTitleLine()
    ensures IsTrigger("Title:") && TitleOf("Title:") == ""
  {
    var line := "Title:";
    EmptyTitleChars();
    assert TitleOf(line) == "" by {
      StarFree(line);
      RemoveDoubleStarsOfFree(line);
      AfterFirstOf("Title", ':', "");
    }
  }

  /** A trigger with nothing after its colon opens a record that is never returned. */
  lemma EmptyTitleDropped()
    ensures Parse("Title:") == []
  {
    EmptyTitleChars();
    EmptyTitleLine();
    SingleTrigger("Title:");
  }

  /**
   * Only the last record is checked for a title: an empty-titled record
   * followed by another trigger is returned, with `title` set to `""`.
   */
  lemma EmptyTitleKeptBeforeAnother(b: string)
    requires b != "" && CleanValue(b) && NoDoubleStar(b)
    ensures Parse("Title:" + "\n" + FieldLine("Title:", b)) == [Opened(""), Opened(b)]
  {
    var lb := FieldLine("Title:", b);
    assert '\n' !in "Title:" && '\n' !in lb by {
      EmptyTitleChars();
      FieldLineFree("Title:", b);
    }
    assert [KindOf("Title:"), KindOf(lb)] == [Trigger(""), Trigger(b)] by {
      EmptyTitleChars();
      StripOfTrimmed("Title:");
      EmptyTitleLine();
      KindOfTitleLine(b);
    }
    ParseTwoLines("Title:", lb);
    FinishTwoTitles("", b);
  }

  /**
   * Field lines before the first trigger build a record of their own: the
   * trigger closes it, and it is returned without a title.
   */
  lemma FoldChartThenTitle(v: string, t: string)
    ensures Fold(Start, [SetChart(v), Trigger(t)]) == ParserState([NoRecord.(chart := Some(v))], Opened(t))
  {
    var s1 := ParserState([], NoRecord.(chart := Some(v)));
    assert [SetChart(v), Trigger(t)] == [SetChart(v)] + [Trigger(t)];
    FoldAppend(Start, [SetChart(v)], [Trigger(t)]);
    FoldOne(Start, SetChart(v));
    FoldOne(s1, Trigger(t));
    assert Closed(s1.current) == [s1.current];
  }

  lemma FieldsBeforeFirstTitle(v: string, t: string)
    requires CleanValue(v)
    requires t != "" && CleanValue(t) && NoDoubleStar(t)
    ensures Parse(FieldLine("Chart:", v) + "\n" + FieldLine("Title:", t))
         == [NoRecord.(chart := Some(v)), Opened(t)]
  {
    var a := FieldLine("Chart:", v);
    var b := FieldLine("Title:", t);
    assert '\n' !in a && '\n' !in b by {
      FieldLineFree("Chart:", v);
      FieldLineFree("Title:", t);
    }
    assert [KindOf(a), KindOf(b)] == [SetChart(v), Trigger(t)] by {
      KindOfChartLine(v);
      KindOfTitleLine(t);
    }
    ParseTwoLines(a, b);
    FinishChartThenTitle(v, t);
  }

  lemma FinishChartThenTitle(v: string, t: string)
    requires t != ""
    ensures Finish(Fold(Start, [SetChart(v), Trigger(t)])) == [NoRecord.(chart := Some(v)), Opened(t)]
  {
    FoldChartThenTitle(v, t);
    assert HasTitle(Opened(t));
  }

  lemma FieldLineFree(key: string, v: string)
    requires '\n' !in key && '\n' !in v
    ensures '\n' !in FieldLine(key, v)
  {
  }

  /** A two-line reply is the fold over its two classified lines. */
  lemma ParseTwoLines(a: string, b: string)
    requires '\n' !in a && '\n' !in b
    ensures Parse(a + "\n" + b) == Finish(Fold(Start, [KindOf(a), KindOf(b)]))
  {
    var lines := [a, b];
    var text := a + "\n" + b;
    assert Split(text, '\n') == lines by {
      JoinTwo(a, b, "\n");
      SplitJoin(lines, '\n');
    }
    ParseIsFoldOfLines(text);
    RunIsFold(Start, lines);
    MapTwo(KindOf, a, b);
  }
}
