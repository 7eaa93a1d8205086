/**
 * The line format the prompt asks the model for (`Title:`, `Explanation:`,
 * `Chart:`, `Columns:`, `Tip:` lines), as a serialiser of insight records,
 * and the round trip: parsing the serialised text gives the records back.
 */
module InsightFormat {
  import opened Wrappers
  import opened Text
  import opened Insights
  import opened ParserReference

  /** A field value that fits on one line and survives `strip`. */
  predicate CleanValue(v: string) {
    Trimmed(v) && '\n' !in v
  }

  /** A column name that survives the comma split and `strip` unchanged. */
  predicate CleanName(c: string) {
    c != "" && Trimmed(c) && ',' !in c && '\n' !in c
  }

  predicate CleanOption(o: Option<string>) {
    o.Some? ==> CleanValue(o.value)
  }

  /**
   * A record the format can carry: a non-empty, single-line, trimmed title
   * without `**`, single-line trimmed values, and clean column names.
   */
  predicate Serialisable(x: Insight) {
    && x.title.Some? && x.title.value != "" && CleanValue(x.title.value) && NoDoubleStar(x.title.value)
    && CleanOption(x.explanation) && CleanOption(x.chart) && CleanOption(x.tip)
    && (x.columns.Some? ==> forall i :: 0 <= i < |x.columns.value| ==> CleanName(x.columns.value[i]))
  }

  /** `key` followed by a space and the value, as in `Tip: Expand top regions`. */
  function FieldLine(key: string, v: string): string {
    key + " " + v
  }

  /** The line for a field that is present; nothing for an absent one. */
  function OptionalLine(key: string, o: Option<string>): seq<string> {
    if o.Some? then [FieldLine(key, o.value)] else []
  }

  function ColumnsLine(o: Option<seq<string>>): seq<string> {
    if o.Some? then [FieldLine("Columns:", Join(o.value, ", "))] else []
  }

  /** The lines of one record, in the prompt's order; only present fields are written. */
  function Lines(x: Insight): seq<string> {
    OptionalLine("Title:", x.title)
      + OptionalLine("Explanation:", x.explanation)
      + OptionalLine("Chart:", x.chart)
      + ColumnsLine(x.columns)
      + OptionalLine("Tip:", x.tip)
  }

  function Serialise(xs: seq<Insight>): seq<string> {
    if |xs| == 0 then [] else Lines(xs[0]) + Serialise(xs[1..])
  }

  /** The text of a reply that lists `xs`, one line per field. */
  function Render(xs: seq<Insight>): string {
    Join(Serialise(xs), "\n")
  }

  // ---------------------------------------------------------------- classifying the lines

  lemma NoDoubleStarAppend(a: string, b: string)
    requires NoDoubleStar(a) && NoDoubleStar(b)
    requires |a| > 0 && |b| > 0 ==> a[|a| - 1] != '*' || b[0] != '*'
    ensures NoDoubleStar(a + b)
  {
    var s := a + b;
    forall i | 0 <= i < |s| - 1 ensures !(s[i] == '*' && s[i + 1] == '*') {
      if i + 1 < |a| {
        assert s[i] == a[i] && s[i + 1] == a[i + 1];
      } else if i >= |a| {
        assert s[i] == b[i - |a|] && s[i + 1] == b[i + 1 - |a|];
      }
    }
  }

  lemma CaselessOfHead(head: string, rest: string, prefix: string)
    requires StartsCaseless(head, prefix)
    ensures StartsCaseless(head + rest, prefix)
  {
    assert forall i :: 0 <= i < |prefix| ==> (head + rest)[i] == head[i];
  }

  lemma NotCaselessOfHead(head: string, rest: string, prefix: string)
    requires |head| > 0 && |prefix| > 0 && AsciiLower(head[0]) != prefix[0]
    ensures !StartsCaseless(head + rest, prefix)
  {
    assert (head + rest)[0] == head[0];
  }

  /** A field key: a capitalised word ending in its only colon. */
  predicate IsKey(key: string) {
    |key| >= 2 && 'A' <= key[0] <= 'Z' && key[|key| - 1] == ':' && ':' !in key[..|key| - 1]
  }

  /** The five keys the serialised lines use. */
  lemma Keys()
    ensures IsKey("Title:") && IsKey("Explanation:") && IsKey("Chart:") && IsKey("Columns:") && IsKey("Tip:")
  {
    assert "Title:"[..5] == "Title";
    assert "Explanation:"[..11] == "Explanation";
    assert "Chart:"[..5] == "Chart";
    assert "Columns:"[..7] == "Columns";
    assert "Tip:"[..3] == "Tip";
  }

  /** What `strip` leaves of a serialised line after its key. */
  function Tail(v: string): string {
    if v == "" then "" else " " + v
  }

  lemma StripFieldLine(key: string, v: string)
    requires IsKey(key) && Trimmed(v)
    ensures Strip(FieldLine(key, v)) == key + Tail(v)
  {
    assert Trimmed(key) by {
      assert !IsSpace(key[0]) && !IsSpace(key[|key| - 1]);
    }
    if v == "" {
      StripKeyAlone(key);
    } else {
      StripKeyValue(key, v);
    }
  }

  /** A key with an empty value: the space after it is stripped. */
  lemma StripKeyAlone(key: string)
    requires Trimmed(key)
    ensures Strip(FieldLine(key, "")) == key + Tail("")
  {
    assert key + Tail("") == key;
    assert FieldLine(key, "") == key + " ";
    StripOfSpaceSuffix(key, " ");
    StripOfTrimmed(key);
  }

  /** A key and a value that both start and end with a visible character. */
  lemma StripKeyValue(key: string, v: string)
    requires key != "" && Trimmed(key) && v != "" && Trimmed(v)
    ensures Strip(FieldLine(key, v)) == key + Tail(v)
  {
    var line := FieldLine(key, v);
    assert line == key + Tail(v) by {
      AppendAssoc(key, " ", v);
    }
    assert line[0] == key[0] && line[|line| - 1] == v[|v| - 1];
    StripOfTrimmed(line);
  }

  lemma ValueOfTail(key: string, v: string)
    requires IsKey(key) && Trimmed(v)
    ensures ValueOf(key + Tail(v)) == v
  {
    var word := key[..|key| - 1];
    assert key == word + [':'] by {
      DropLastAppend(key);
    }
    AfterFirstOf(word, ':', Tail(v));
    StripTail(v);
  }

  lemma StripTail(v: string)
    requires Trimmed(v)
    ensures Strip(Tail(v)) == v
  {
    if v != "" {
      StripOfSpacePrefix(" ", v);
    }
    StripOfTrimmed(v);
  }

  /** A stripped field line is no trigger: it starts with a capital other than `T`. */
  lemma FieldLineNotTrigger(key: string, v: string)
    requires IsKey(key) && key[0] != 'T'
    ensures !IsTrigger(key + Tail(v))
  {
    NotCaselessOfHead(key, Tail(v), "title:");
    NotCaselessOfHead(key, Tail(v), "**");
    assert (key + Tail(v))[0] == key[0];
  }

  lemma KindOfField(key: string, v: string)
    requires IsKey(key) && Trimmed(v)
    ensures KindOf(FieldLine(key, v)) == Classify(key + Tail(v))
    ensures ValueOf(key + Tail(v)) == v
  {
    StripFieldLine(key, v);
    ValueOfTail(key, v);
  }

  lemma KindOfExplanationLine(v: string)
    requires Trimmed(v)
    ensures KindOf(FieldLine("Explanation:", v)) == SetExplanation(v)
  {
    var line := "Explanation:" + Tail(v);
    Keys();
    CaselessOfHead("Explanation:", Tail(v), "explanation:");
    FieldLineNotTrigger("Explanation:", v);
    KindOfField("Explanation:", v);
    assert Classify(line) == SetExplanation(ValueOf(line));
  }

  lemma KindOfChartLine(v: string)
    requires Trimmed(v)
    ensures KindOf(FieldLine("Chart:", v)) == SetChart(v)
  {
    var line := "Chart:" + Tail(v);
    Keys();
    CaselessOfHead("Chart:", Tail(v), "chart:");
    NotCaselessOfHead("Chart:", Tail(v), "explanation:");
    FieldLineNotTrigger("Chart:", v);
    KindOfField("Chart:", v);
    assert Classify(line) == SetChart(ValueOf(line));
  }

  lemma KindOfTipLine(v: string)
    requires Trimmed(v)
    ensures KindOf(FieldLine("Tip:", v)) == SetTip(v)
  {
    var line := "Tip:" + Tail(v);
    Keys();
    CaselessOfHead("Tip:", Tail(v), "tip:");
    assert !StartsCaseless(line, "title:") by {
      assert line[2] == 'p';
    }
    NotCaselessOfHead("Tip:", Tail(v), "**");
    assert !IsTrigger(line) by {
      assert line[0] == 'T';
    }
    NotCaselessOfHead("Tip:", Tail(v), "explanation:");
    NotCaselessOfHead("Tip:", Tail(v), "chart:");
    NotCaselessOfHead("Tip:", Tail(v), "columns:");
    KindOfField("Tip:", v);
    assert Classify(line) == SetTip(ValueOf(line));
  }

  lemma KindOfTitleLine(t: string)
    requires t != "" && Trimmed(t) && NoDoubleStar(t)
    ensures KindOf(FieldLine("Title:", t)) == Trigger(t)
  {
    Keys();
    KindOfField("Title:", t);
    TitleLine(t);
  }

  /** The line `Title: t` is a trigger whose title is `t`. */
  lemma TitleLine(t: string)
    requires t != "" && Trimmed(t) && NoDoubleStar(t)
    ensures IsTrigger("Title:" + Tail(t))
    ensures TitleOf("Title:" + Tail(t)) == t
  {
    var line := "Title:" + Tail(t);
    Keys();
    CaselessOfHead("Title:", Tail(t), "title:");
    StarFreeHead(" ", t);
    StarFreeHead("Title:", Tail(t));
    TitleOfFree(line);
    ValueOfTail("Title:", t);
  }

  /** The bold-key layout `**Title:** t` is a trigger whose title is `t`. */
  lemma BoldKeyTitle(t: string)
    requires Trimmed(t) && NoDoubleStar(t)
    ensures IsTrigger("**Title:** " + t)
    ensures TitleOf("**Title:** " + t) == t
  {
    BoldKeyTrigger(t);
    BoldKeyPairs(t);
    KeyColonTitle(t);
    StripSpaced(t);
  }

  lemma BoldKeyTrigger(t: string)
    ensures IsTrigger("**Title:** " + t)
  {
    assert ("**Title:** " + t)[..2] == "**";
  }

  /** A space in front of trimmed text is all `strip` removes. */
  lemma StripSpaced(t: string)
    requires Trimmed(t)
    ensures Strip(" " + t) == t
  {
    assert AllSpace(" ");
    StripOfSpacePrefix(" ", t);
    StripOfTrimmed(t);
  }

  /** Both `**` pairs of `**Title:** t` go without touching the title. */
  lemma BoldKeyPairs(t: string)
    ensures TitleOf("**Title:** " + t) == TitleOf("Title:" + (" " + t))
  {
    BoldKeyLayout(t);
    TitleDropsPair("", "Title:**" + (" " + t));
    TitleDropsPair("Title:", " " + t);
  }

  /** After the `Title:` key the title is the rest, stripped. */
  lemma KeyColonTitle(t: string)
    requires NoDoubleStar(t)
    ensures TitleOf("Title:" + (" " + t)) == Strip(" " + t)
  {
    BoldKeyLayout(t);
    StarFreeHead(" ", t);
    StarFreeHead("Title:", " " + t);
    TitleAfterColon("Title", " " + t);
  }

  /** Where `**Title:** t` has its `**` pairs and its first colon. */
  lemma BoldKeyLayout(t: string)
    ensures "**Title:** " + t == "" + "**" + ("Title:**" + (" " + t))
    ensures "" + ("Title:**" + (" " + t)) == "Title:" + "**" + (" " + t)
    ensures "Title:" + (" " + t) == "Title" + [':'] + (" " + t)
    ensures NoDoubleStar("") && NoDoubleStar("Title:") && "Title:"[5] != '*'
    ensures ':' !in "Title" && '*' !in "Title:" && '*' !in " "
  {
  }

  /** Text without `*` in front of text without `**` has no `**`. */
  lemma StarFreeHead(a: string, t: string)
    requires '*' !in a && NoDoubleStar(t)
    ensures NoDoubleStar(a + t)
  {
    assert |a| > 0 ==> a[|a| - 1] in a;
    NoDoubleStarAppend(a, t);
  }



  // ---------------------------------------------------------------- the columns value

  /** The pieces `split(",")` cuts `", ".join(names)` into. */
  function Spaced(names: seq<string>): seq<string> {
    Padded(" ", names)
  }

  /** Every name with `pad` in front. */
  function Padded(pad: string, names: seq<string>): (r: seq<string>)
    ensures |r| == |names|
    ensures forall i :: 0 <= i < |names| ==> r[i] == pad + names[i]
  {
    if |names| == 0 then [] else [pad + names[0]] + Padded(pad, names[1..])
  }

  lemma {:induction false} JoinPadded(names: seq<string>, c: char, pad: string)
    requires |names| >= 1
    ensures Join(Padded(pad, names), [c]) == pad + Join(names, [c] + pad)
    decreases |names|
  {
    if |names| > 1 {
      JoinPadded(names[1..], c, pad);
      var r := Join(names[1..], [c] + pad);
      assert Padded(pad, names)[1..] == Padded(pad, names[1..]);
      assert Join(Padded(pad, names), [c]) == pad + names[0] + [c] + (pad + r);
      Regroup(pad, names[0], [c], r);
    }
  }

  lemma Regroup<T>(p: seq<T>, a: seq<T>, c: seq<T>, r: seq<T>)
    ensures p + a + c + (p + r) == p + (a + (c + p) + r)
  {
  }

  lemma {:induction false} JoinAsPieces(names: seq<string>, c: char, pad: string)
    requires |names| >= 1
    ensures Join(names, [c] + pad) == Join([names[0]] + Padded(pad, names[1..]), [c])
  {
    var tail := names[1..];
    var pieces := [names[0]] + Padded(pad, tail);
    if |tail| > 0 {
      var rest := Join(tail, [c] + pad);
      JoinPadded(tail, c, pad);
      assert pieces[1..] == Padded(pad, tail);
      assert Join(pieces, [c]) == names[0] + [c] + (pad + rest);
      assert names[0] + [c] + (pad + rest) == names[0] + ([c] + pad) + rest;
    } else {
      assert pieces == [names[0]];
    }
  }

  lemma SplitPadded(names: seq<string>, c: char, pad: string)
    requires |names| >= 1
    requires c !in pad
    requires forall i :: 0 <= i < |names| ==> c !in names[i]
    ensures Split(Join(names, [c] + pad), c) == [names[0]] + Padded(pad, names[1..])
  {
    var pieces := [names[0]] + Padded(pad, names[1..]);
    assert forall i :: 0 <= i < |pieces| ==> c !in pieces[i] by {
      assert forall i :: 1 <= i < |pieces| ==> pieces[i] == pad + names[i];
    }
    JoinAsPieces(names, c, pad);
    SplitJoin(pieces, c);
  }

  lemma SplitJoinedNames(names: seq<string>)
    requires |names| >= 1
    requires forall i :: 0 <= i < |names| ==> CleanName(names[i])
    ensures Split(Join(names, ", "), ',') == [names[0]] + Spaced(names[1..])
  {
    assert [','] + " " == ", ";
    SplitPadded(names, ',', " ");
  }

  lemma {:induction false} JoinFree(parts: seq<string>, sep: string, c: char)
    requires forall i :: 0 <= i < |parts| ==> c !in parts[i]
    requires c !in sep
    ensures c !in Join(parts, sep)
    decreases |parts|
  {
    if |parts| > 1 {
      JoinFree(parts[1..], sep, c);
    }
  }

  lemma {:induction false} JoinTrimmed(names: seq<string>)
    requires forall i :: 0 <= i < |names| ==> CleanName(names[i])
    ensures Trimmed(Join(names, ", "))
    ensures |names| > 0 ==> Join(names, ", ") != ""
    decreases |names|
  {
    if |names| > 1 {
      JoinTrimmed(names[1..]);
      var j := Join(names, ", ");
      assert j == names[0] + (", " + Join(names[1..], ", "));
      assert j[0] == names[0][0];
    }
  }

  lemma NonBlankCons(ps: seq<string>, x: string)
    requires |ps| > 0 && Strip(ps[0]) == x && x != ""
    ensures NonBlank(ps) == [x] + NonBlank(ps[1..])
  {
  }

  lemma PaddedHead(pad: string, names: seq<string>)
    requires AllSpace(pad) && |names| > 0 && Trimmed(names[0])
    ensures Strip(Padded(pad, names)[0]) == names[0]
    ensures Padded(pad, names)[1..] == Padded(pad, names[1..])
  {
    StripOfSpacePrefix(pad, names[0]);
    StripOfTrimmed(names[0]);
  }

  lemma {:induction false} NonBlankPadded(pad: string, names: seq<string>)
    requires AllSpace(pad)
    requires forall i :: 0 <= i < |names| ==> names[i] != "" && Trimmed(names[i])
    ensures NonBlank(Padded(pad, names)) == names
    decreases |names|
  {
    if |names| > 0 {
      var ps := Padded(pad, names);
      var tail := names[1..];
      PaddedHead(pad, names);
      NonBlankCons(ps, names[0]);
      NonBlankPadded(pad, tail);
      ConsAppend(names, []);
    }
  }

  lemma NonBlankPieces(names: seq<string>)
    requires |names| > 0
    requires forall i :: 0 <= i < |names| ==> names[i] != "" && Trimmed(names[i])
    ensures NonBlank([names[0]] + Spaced(names[1..])) == names
  {
    var tail := names[1..];
    var pieces := [names[0]] + Spaced(tail);
    ConsTail(names[0], Spaced(tail));
    StripOfTrimmed(names[0]);
    NonBlankCons(pieces, names[0]);
    NonBlankPadded(" ", tail);
    ConsAppend(names, []);
  }

  /** Clean column names joined with `", "` split back into the same names. */
  lemma ColumnNamesRoundTrip(names: seq<string>)
    requires forall i :: 0 <= i < |names| ==> CleanName(names[i])
    ensures NonBlank(Split(Join(names, ", "), ',')) == names
  {
    if |names| == 0 {
      NoColumnNames();
    } else {
      SomeColumnNames(names);
    }
  }

  /** An empty list is written as the empty value, which gives no names back. */
  lemma NoColumnNames()
    ensures NonBlank(Split(Join([], ", "), ',')) == []
  {
    assert Join([], ", ") == "";
    SplitWithoutSep("", ',');
    assert AllSpace([""][0]);
  }

  lemma SomeColumnNames(names: seq<string>)
    requires |names| > 0
    requires forall i :: 0 <= i < |names| ==> CleanName(names[i])
    ensures NonBlank(Split(Join(names, ", "), ',')) == names
  {
    assert Split(Join(names, ", "), ',') == [names[0]] + Spaced(names[1..]) by {
      SplitJoinedNames(names);
    }
    NonBlankPieces(names);
  }

  lemma KindOfColumnsValue(v: string)
    requires Trimmed(v)
    ensures KindOf(FieldLine("Columns:", v)) == SetColumns(NonBlank(Split(v, ',')))
  {
    var line := "Columns:" + Tail(v);
    Keys();
    CaselessOfHead("Columns:", Tail(v), "columns:");
    NotCaselessOfHead("Columns:", Tail(v), "explanation:");
    assert !StartsCaseless(line, "chart:") by {
      assert line[1] == 'o';
    }
    FieldLineNotTrigger("Columns:", v);
    KindOfField("Columns:", v);
    assert Classify(line) == SetColumns(ColumnsOf(line));
  }

  lemma KindOfColumnsLine(names: seq<string>)
    requires forall i :: 0 <= i < |names| ==> CleanName(names[i])
    ensures KindOf(FieldLine("Columns:", Join(names, ", "))) == SetColumns(names)
  {
    var v := Join(names, ", ");
    assert Trimmed(v) by {
      JoinTrimmed(names);
    }
    assert NonBlank(Split(v, ',')) == names by {
      ColumnNamesRoundTrip(names);
    }
    KindOfColumnsValue(v);
  }

  // ---------------------------------------------------------------- the round trip

  /** What the parser's classifier makes of the lines of one record. */
  function Kinds(x: Insight): seq<LineKind> {
    (if x.title.Some? then [Trigger(x.title.value)] else [])
      + (if x.explanation.Some? then [SetExplanation(x.explanation.value)] else [])
      + (if x.chart.Some? then [SetChart(x.chart.value)] else [])
      + (if x.columns.Some? then [SetColumns(x.columns.value)] else [])
      + (if x.tip.Some? then [SetTip(x.tip.value)] else [])
  }

  lemma LexAppend(a: seq<string>, b: seq<string>)
    ensures Lex(a + b) == Lex(a) + Lex(b)
  {
    MapAppend(KindOf, a, b);
  }

  lemma LexOne(line: string)
    ensures Lex([line]) == [KindOf(line)]
  {
    MapOne(KindOf, line);
  }

  lemma LexLines(x: Insight)
    requires Serialisable(x)
    ensures Lex(Lines(x)) == Kinds(x)
  {
    var t := OptionalLine("Title:", x.title);
    var e := OptionalLine("Explanation:", x.explanation);
    var c := OptionalLine("Chart:", x.chart);
    var k := ColumnsLine(x.columns);
    var p := OptionalLine("Tip:", x.tip);
    assert Lex(t) == [Trigger(x.title.value)] by {
      LexOne(t[0]);
      KindOfTitleLine(x.title.value);
    }
    assert Lex(e) == if x.explanation.Some? then [SetExplanation(x.explanation.value)] else [] by {
      if x.explanation.Some? {
        LexOne(e[0]);
        KindOfExplanationLine(x.explanation.value);
      }
    }
    assert Lex(c) == if x.chart.Some? then [SetChart(x.chart.value)] else [] by {
      if x.chart.Some? {
        LexOne(c[0]);
        KindOfChartLine(x.chart.value);
      }
    }
    assert Lex(k) == if x.columns.Some? then [SetColumns(x.columns.value)] else [] by {
      if x.columns.Some? {
        LexOne(k[0]);
        KindOfColumnsLine(x.columns.value);
      }
    }
    assert Lex(p) == if x.tip.Some? then [SetTip(x.tip.value)] else [] by {
      if x.tip.Some? {
        LexOne(p[0]);
        KindOfTipLine(x.tip.value);
      }
    }
    LexAppend(t, e);
    LexAppend(t + e, c);
    LexAppend(t + e + c, k);
    LexAppend(t + e + c + k, p);
  }

  lemma FoldOne(s: ParserState, k: LineKind)
    ensures Fold(s, [k]) == Apply(s, k)
  {
  }

  /**
   * A record's lines close whatever dict was open and leave exactly the
   * record open.
   */
  lemma FoldKinds(d: seq<Insight>, c: Insight, x: Insight)
    requires x.title.Some?
    ensures Fold(ParserState(d, c), Kinds(x)) == ParserState(d + Closed(c), x)
  {
    var t := if x.title.Some? then [Trigger(x.title.value)] else [];
    var e := if x.explanation.Some? then [SetExplanation(x.explanation.value)] else [];
    var h := if x.chart.Some? then [SetChart(x.chart.value)] else [];
    var k := if x.columns.Some? then [SetColumns(x.columns.value)] else [];
    var p := if x.tip.Some? then [SetTip(x.tip.value)] else [];
    var s0 := ParserState(d, c);
    var s1 := ParserState(d + Closed(c), Opened(x.title.value));
    var s2 := s1.(current := s1.current.(explanation := x.explanation));
    var s3 := s2.(current := s2.current.(chart := x.chart));
    var s4 := s3.(current := s3.current.(columns := x.columns));
    var s5 := s4.(current := s4.current.(tip := x.tip));
    assert Fold(s0, t) == s1 by {
      FoldOne(s0, t[0]);
    }
    assert Fold(s1, e) == s2 by {
      if x.explanation.Some? { FoldOne(s1, e[0]); }
    }
    assert Fold(s2, h) == s3 by {
      if x.chart.Some? { FoldOne(s2, h[0]); }
    }
    assert Fold(s3, k) == s4 by {
      if x.columns.Some? { FoldOne(s3, k[0]); }
    }
    assert Fold(s4, p) == s5 by {
      if x.tip.Some? { FoldOne(s4, p[0]); }
    }
    FoldAppend(s0, t, e);
    FoldAppend(s0, t + e, h);
    FoldAppend(s0, t + e + h, k);
    FoldAppend(s0, t + e + h + k, p);
  }

  function AllKinds(xs: seq<Insight>): seq<LineKind> {
    if |xs| == 0 then [] else Kinds(xs[0]) + AllKinds(xs[1..])
  }

  lemma {:induction false} LexSerialise(xs: seq<Insight>)
    requires forall i :: 0 <= i < |xs| ==> Serialisable(xs[i])
    ensures Lex(Serialise(xs)) == AllKinds(xs)
    decreases |xs|
  {
    if |xs| > 0 {
      LexSerialise(xs[1..]);
      LexLines(xs[0]);
      LexAppend(Lines(xs[0]), Serialise(xs[1..]));
    }
  }

  /**
   * The lines of `xs` close the open dict `c` (when non-empty), emit every
   * record but the last, and leave the last one open.
   */
  lemma {:induction false} FoldAll(d: seq<Insight>, c: Insight, xs: seq<Insight>)
    requires |xs| > 0
    requires forall i :: 0 <= i < |xs| ==> xs[i].title.Some?
    ensures Fold(ParserState(d, c), AllKinds(xs)) == ParserState(d + Closed(c) + xs[..|xs| - 1], xs[|xs| - 1])
    decreases |xs|
  {
    var s0 := ParserState(d, c);
    FoldAppend(s0, Kinds(xs[0]), AllKinds(xs[1..]));
    FoldKinds(d, c, xs[0]);
    if |xs| == 1 {
      assert AllKinds(xs[1..]) == [];
      Whole(xs[..0]);
      EmptyAppend(d + Closed(c));
    } else {
      var tail := xs[1..];
      FoldAll(d + Closed(c), xs[0], tail);
      assert Closed(xs[0]) == [xs[0]];
      FrontOfCons(d + Closed(c), xs);
    }
  }

  lemma FrontOfCons<T>(d: seq<T>, xs: seq<T>)
    requires |xs| >= 2
    ensures d + [xs[0]] + xs[1..][..|xs| - 2] == d + xs[..|xs| - 1]
    ensures xs[1..][|xs| - 2] == xs[|xs| - 1]
  {
    assert xs[..|xs| - 1] == [xs[0]] + xs[1..][..|xs| - 2];
  }

  /** Parsing the lines of serialisable records gives the records back. */
  lemma ParseLinesSerialise(xs: seq<Insight>)
    requires forall i :: 0 <= i < |xs| ==> Serialisable(xs[i])
    ensures ParseLines(Serialise(xs)) == xs
  {
    assert ParseLines(Serialise(xs)) == Finish(Fold(Start, AllKinds(xs))) by {
      RunIsFold(Start, Serialise(xs));
      LexSerialise(xs);
    }
    FinishAllKinds(xs);
  }

  lemma FinishAllKinds(xs: seq<Insight>)
    requires forall i :: 0 <= i < |xs| ==> Serialisable(xs[i])
    ensures Finish(Fold(Start, AllKinds(xs))) == xs
  {
    if |xs| > 0 {
      var n := |xs|;
      SerialisableTitles(xs);
      FoldAllFromStart(xs);
      assert HasTitle(xs[n - 1]) by {
        assert Serialisable(xs[n - 1]);
      }
      FinishTitled(xs[..n - 1], xs[n - 1]);
      DropLastAppend(xs);
    }
  }

  lemma {:induction false} FoldAllFromStart(xs: seq<Insight>)
    requires |xs| > 0
    requires forall i :: 0 <= i < |xs| ==> xs[i].title.Some?
    ensures Fold(Start, AllKinds(xs)) == ParserState(xs[..|xs| - 1], xs[|xs| - 1])
  {
    FoldAll([], NoRecord, xs);
    EmptyAppend(xs[..|xs| - 1]);
  }

  lemma SerialisableTitles(xs: seq<Insight>)
    requires forall i :: 0 <= i < |xs| ==> Serialisable(xs[i])
    ensures forall i :: 0 <= i < |xs| ==> xs[i].title.Some?
  {
    forall i | 0 <= i < |xs| ensures xs[i].title.Some? {
      assert Serialisable(xs[i]);
    }
  }

  /** A record with a title is returned after the ones emitted. */
  lemma FinishTitled(d: seq<Insight>, x: Insight)
    requires HasTitle(x)
    ensures Finish(ParserState(d, x)) == d + [x]
  {
  }


  lemma {:induction false} SerialisedLinesFree(xs: seq<Insight>)
    requires forall i :: 0 <= i < |xs| ==> Serialisable(xs[i])
    ensures forall i :: 0 <= i < |Serialise(xs)| ==> '\n' !in Serialise(xs)[i]
    decreases |xs|
  {
    if |xs| > 0 {
      SerialisedLinesFree(xs[1..]);
      LinesFree(xs[0]);
      LinesWithout(Lines(xs[0]), Serialise(xs[1..]), '\n');
    }
  }

  /** Pieces without `c` from two lists make a list of pieces without `c`. */
  lemma LinesWithout(a: seq<string>, b: seq<string>, c: char)
    requires forall i :: 0 <= i < |a| ==> c !in a[i]
    requires forall i :: 0 <= i < |b| ==> c !in b[i]
    ensures forall i :: 0 <= i < |a + b| ==> c !in (a + b)[i]
  {
    assert forall i :: 0 <= i < |a + b| ==> (a + b)[i] == if i < |a| then a[i] else b[i - |a|];
  }

  lemma LinesFree(x: Insight)
    requires Serialisable(x)
    ensures forall i :: 0 <= i < |Lines(x)| ==> '\n' !in Lines(x)[i]
  {
    if x.columns.Some? {
      JoinFree(x.columns.value, ", ", '\n');
    }
  }

  /**
   * The reply text that lists serialisable records, one field per line in
   * the order the prompt asks for, parses back to exactly those records.
   */
  lemma ParseRender(xs: seq<Insight>)
    requires forall i :: 0 <= i < |xs| ==> Serialisable(xs[i])
    ensures Parse(Render(xs)) == xs
  {
    ParseIsFoldOfLines(Render(xs));
    var lines := Serialise(xs);
    if |xs| == 0 {
      assert Split("", '\n') == [""];
      assert ParseLines([""]) == [] by {
        RunSingle(Start, "");
      }
    } else {
      assert |lines| > 0;
      SerialisedLinesFree(xs);
      assert "\n" == ['\n'];
      SplitJoin(lines, '\n');
      ParseLinesSerialise(xs);
    }
  }
}
