/**
 * The insight parser of app.py (`parse_detailed_insights`): a left fold over
 * the stripped lines of a language-model reply. The accumulator is the dict
 * being built (`current`, empty when no record is open) and the list of
 * records already emitted.
 */
module Insights {
  import opened Wrappers
  import opened Text

  /** One parsed insight: a dict whose keys are all optional. */
  datatype Insight = Insight(
    title: Option<string>,
    explanation: Option<string>,
    chart: Option<string>,
    columns: Option<seq<string>>,
    tip: Option<string>)

  /** The empty dict `{}`. */
  const NoRecord := Insight(None, None, None, None, None)

  /** `{"title": title}`, the dict a trigger line opens. */
  function Opened(title: string): Insight {
    NoRecord.(title := Some(title))
  }

  /** Python truthiness of the dict: at least one key is present. */
  predicate IsOpen(x: Insight) {
    x.title.Some? || x.explanation.Some? || x.chart.Some? || x.columns.Some? || x.tip.Some?
  }

  /** `current.get("title")` is truthy. */
  predicate HasTitle(x: Insight) {
    x.title.Some? && x.title.value != ""
  }

  /** What one stripped line does to the accumulator. */
  datatype LineKind =
    | Trigger(title: string)
    | SetExplanation(text: string)
    | SetChart(text: string)
    | SetColumns(names: seq<string>)
    | SetTip(text: string)
    | Ignored

  /**
   * A line opens a new record when it starts with `title:` in any case, starts
   * with `**`, or starts with a digit and has a `.` among its first three
   * characters.
   */
  predicate IsTrigger(line: string) {
    || StartsCaseless(line, "title:")
    || StartsCaseless(line, "**")
    || (|line| > 0 && IsDigit(line[0]) && '.' in line[..Min(3, |line|)])
  }

  /** The title of a trigger line: `**` removed, text after the first `:`, stripped. */
  function TitleOf(line: string): (t: string)
    ensures Trimmed(t) && NoDoubleStar(t)
  {
    var body := RemoveDoubleStars(line);
    var t := Strip(AfterFirst(body, ':'));
    NoDoubleStarInfix(body, AfterFirst(body, ':'));
    NoDoubleStarStrip(AfterFirst(body, ':'));
    t
  }

  /** The value of a field line: the text after the first `:`, stripped. */
  function ValueOf(line: string): (v: string)
    ensures Trimmed(v)
  {
    Strip(AfterFirst(line, ':'))
  }

  /**
   * The list comprehension `[c.strip() for c in pieces if c.strip()]`: every
   * kept name is stripped and non-empty.
   */
  function NonBlank(pieces: seq<string>): (r: seq<string>)
    ensures |r| <= |pieces|
    ensures forall i :: 0 <= i < |r| ==> r[i] != "" && Trimmed(r[i])
    ensures (forall i :: 0 <= i < |pieces| ==> AllSpace(pieces[i])) ==> r == []
  {
    if |pieces| == 0 then []
    else
      var p := Strip(pieces[0]);
      var rest := NonBlank(pieces[1..]);
      KeptNames(p, rest);
      AllSpaceTail(pieces);
      (if p == "" then [] else [p]) + rest
  }

  /** The kept names of `a + b` are those of `a` followed by those of `b`: order is preserved. */
  lemma {:induction false} NonBlankAppend(a: seq<string>, b: seq<string>)
    ensures NonBlank(a + b) == NonBlank(a) + NonBlank(b)
    decreases |a|
  {
    if |a| == 0 {
      assert a + b == b;
    } else {
      assert (a + b)[0] == a[0];
      assert (a + b)[1..] == a[1..] + b;
      NonBlankAppend(a[1..], b);
      var p := Strip(a[0]);
      AppendAssoc(if p == "" then [] else [p], NonBlank(a[1..]), NonBlank(b));
    }
  }

  /** One piece is kept, stripped, exactly when it is not blank. */
  lemma NonBlankSingle(piece: string)
    ensures NonBlank([piece]) == if Strip(piece) == "" then [] else [Strip(piece)]
  {
    assert [piece][1..] == [];
  }

  lemma KeptNames(p: string, rest: seq<string>)
    requires Trimmed(p)
    requires forall i :: 0 <= i < |rest| ==> rest[i] != "" && Trimmed(rest[i])
    ensures var r := (if p == "" then [] else [p]) + rest;
      forall i :: 0 <= i < |r| ==> r[i] != "" && Trimmed(r[i])
    ensures p == "" ==> (if p == "" then [] else [p]) + rest == rest
  {
    var r := (if p == "" then [] else [p]) + rest;
    if p != "" {
      forall i | 0 <= i < |r| ensures r[i] != "" && Trimmed(r[i]) {
        if i > 0 {
          assert r[i] == rest[i - 1];
        }
      }
    } else {
      EmptyAppend(rest);
    }
  }

  lemma AllSpaceTail(pieces: seq<string>)
    requires |pieces| > 0
    ensures (forall i :: 0 <= i < |pieces| ==> AllSpace(pieces[i])) ==>
      AllSpace(pieces[0]) && forall i :: 0 <= i < |pieces[1..]| ==> AllSpace(pieces[1..][i])
  {
  }

  /** The `columns:` value: the text after the first `:`, split on `,`, blanks dropped. */
  function ColumnsOf(line: string): (names: seq<string>)
    ensures forall i :: 0 <= i < |names| ==> names[i] != "" && Trimmed(names[i])
    ensures AllSpace(AfterFirst(line, ':')) ==> names == []
  {
    var pieces := Split(ValueOf(line), ',');
    assert AllSpace(AfterFirst(line, ':')) ==> pieces == [""];
    NonBlank(pieces)
  }

  /**
   * The `if`/`elif` chain on a stripped line. The field prefixes are compared,
   * in case-insensitive form, only when the trigger test fails.
   */
  function Classify(line: string): (k: LineKind)
    ensures k.Trigger? <==> IsTrigger(line)
    ensures k.Trigger? ==> k.title == TitleOf(line)
    ensures line == "" ==> k == Ignored
  {
    if IsTrigger(line) then Trigger(TitleOf(line))
    else if StartsCaseless(line, "explanation:") then SetExplanation(ValueOf(line))
    else if StartsCaseless(line, "chart:") then SetChart(ValueOf(line))
    else if StartsCaseless(line, "columns:") then SetColumns(ColumnsOf(line))
    else if StartsCaseless(line, "tip:") then SetTip(ValueOf(line))
    else Ignored
  }

  /** The accumulator: records emitted so far and the dict being built. */
  datatype ParserState = ParserState(emitted: seq<Insight>, current: Insight)

  const Start := ParserState([], NoRecord)

  /** The records a trigger line closes: `current`, when it is a non-empty dict. */
  function Closed(x: Insight): seq<Insight> {
    if IsOpen(x) then [x] else []
  }

  /**
   * One iteration of the loop over lines. Only a trigger line emits anything
   * and only a trigger line touches the title; a field line sets its one key
   * of `current`, and any other line changes nothing.
   */
  function Step(s: ParserState, raw: string): (r: ParserState)
    ensures IsTrigger(Strip(raw)) ==> r == ParserState(s.emitted + Closed(s.current), Opened(TitleOf(Strip(raw))))
    ensures !IsTrigger(Strip(raw)) ==> r.emitted == s.emitted && r.current.title == s.current.title
    ensures AllSpace(raw) ==> r == s
  {
    var k := KindOf(raw);
    assert AllSpace(raw) ==> k == Ignored by {
      assert AllSpace(raw) ==> Strip(raw) == "";
    }
    Apply(s, k)
  }

  /** What a raw line of the reply means once stripped. */
  function KindOf(raw: string): LineKind {
    Classify(Strip(raw))
  }

  /** The effect of one classified line on the accumulator. */
  function Apply(s: ParserState, k: LineKind): (r: ParserState)
    ensures !k.Trigger? ==> r.emitted == s.emitted && r.current.title == s.current.title
    ensures k == Ignored ==> r == s
  {
    match k
    case Trigger(t) => ParserState(s.emitted + Closed(s.current), Opened(t))
    case SetExplanation(v) => s.(current := s.current.(explanation := Some(v)))
    case SetChart(v) => s.(current := s.current.(chart := Some(v)))
    case SetColumns(names) => s.(current := s.current.(columns := Some(names)))
    case SetTip(v) => s.(current := s.current.(tip := Some(v)))
    case Ignored => s
  }

  /** The loop `for line in lines`. */
  function Run(s: ParserState, lines: seq<string>): ParserState
    decreases |lines|
  {
    if |lines| == 0 then s else Run(Step(s, lines[0]), lines[1..])
  }

  /** After the loop: the open record is kept only when its title is non-empty. */
  function Finish(s: ParserState): seq<Insight> {
    s.emitted + (if HasTitle(s.current) then [s.current] else [])
  }

  /**
   * The parse of already split lines. Every record returned is a non-empty
   * dict, and every record but the first has a title key: only a leading
   * record built from field lines that came before any trigger can lack one.
   */
  function ParseLines(lines: seq<string>): (r: seq<Insight>)
    ensures forall i :: 0 <= i < |r| ==> IsOpen(r[i])
    ensures forall i :: 1 <= i < |r| ==> r[i].title.Some?
  {
    RunKeepsShape(Start, lines);
    Finish(Run(Start, lines))
  }

  /** `parse_detailed_insights(text)`: strip the text, split it on newlines, fold. */
  function Parse(text: string): (r: seq<Insight>)
    ensures forall i :: 0 <= i < |r| ==> IsOpen(r[i])
    ensures forall i :: 1 <= i < |r| ==> r[i].title.Some?
  {
    ParseLines(Split(Strip(text), '\n'))
  }

  // ---------------------------------------------------------------- lemmas

  lemma NoDoubleStarInfix(s: string, t: string)
    requires NoDoubleStar(s)
    requires |t| <= |s| && t == s[|s| - |t|..]
    ensures NoDoubleStar(t)
  {
    forall i | 0 <= i < |t| - 1 ensures !(t[i] == '*' && t[i + 1] == '*') {
      assert t[i] == s[|s| - |t| + i] && t[i + 1] == s[|s| - |t| + i + 1];
    }
  }

  lemma NoDoubleStarStrip(s: string)
    requires NoDoubleStar(s)
    ensures NoDoubleStar(Strip(s))
  {
    var lead, trail := StripDecompose(s);
    NoDoubleStarMiddle(lead, Strip(s), trail);
  }

  /** The shape ParseLines promises, as an invariant of the accumulator. */
  predicate WellShaped(s: ParserState) {
    && (forall i :: 0 <= i < |s.emitted| ==> IsOpen(s.emitted[i]))
    && (forall i :: 1 <= i < |s.emitted| ==> s.emitted[i].title.Some?)
    && (|s.emitted| > 0 ==> s.current.title.Some?)
  }

  lemma StepKeepsShape(s: ParserState, raw: string)
    requires WellShaped(s)
    ensures WellShaped(Step(s, raw))
  {
    if IsTrigger(Strip(raw)) {
      ShapeAfterTrigger(s, TitleOf(Strip(raw)));
    } else {
      ShapeWithoutTrigger(s, Step(s, raw));
    }
  }

  /** A trigger closes a well-shaped record and opens one with a title. */
  lemma ShapeAfterTrigger(s: ParserState, t: string)
    requires WellShaped(s)
    ensures WellShaped(ParserState(s.emitted + Closed(s.current), Opened(t)))
  {
    var e := s.emitted + Closed(s.current);
    forall i | 0 <= i < |e| ensures IsOpen(e[i]) && (i >= 1 ==> e[i].title.Some?) {
      if i >= |s.emitted| {
        assert e[i] == s.current;
      } else {
        assert e[i] == s.emitted[i];
      }
    }
  }

  lemma ShapeWithoutTrigger(s: ParserState, r: ParserState)
    requires WellShaped(s)
    requires r.emitted == s.emitted && r.current.title == s.current.title
    ensures WellShaped(r)
  {
  }

  lemma {:induction false} RunKeepsShape(s: ParserState, lines: seq<string>)
    requires WellShaped(s)
    ensures WellShaped(Run(s, lines))
    decreases |lines|
  {
    if |lines| > 0 {
      StepKeepsShape(s, lines[0]);
      RunKeepsShape(Step(s, lines[0]), lines[1..]);
    }
  }

  /** Folding over `a + b` is folding over `a`, then over `b`. */
  lemma {:induction false} RunAppend(s: ParserState, a: seq<string>, b: seq<string>)
    ensures Run(s, a + b) == Run(Run(s, a), b)
    decreases |a|
  {
    if |a| == 0 {
      assert a + b == b;
    } else {
      assert (a + b)[0] == a[0] && (a + b)[1..] == a[1..] + b;
      RunAppend(Step(s, a[0]), a[1..], b);
    }
  }

  /** Emitted records are never dropped or reordered by later lines. */
  lemma {:induction false} RunExtends(s: ParserState, lines: seq<string>)
    ensures |s.emitted| <= |Run(s, lines).emitted|
    ensures Run(s, lines).emitted[..|s.emitted|] == s.emitted
    decreases |lines|
  {
    if |lines| > 0 {
      var s' := Step(s, lines[0]);
      StepExtends(s, lines[0]);
      RunExtends(s', lines[1..]);
      PrefixTrans(s.emitted, s'.emitted, Run(s', lines[1..]).emitted);
    } else {
      Whole(s.emitted);
    }
  }

  lemma StepExtends(s: ParserState, raw: string)
    ensures |s.emitted| <= |Step(s, raw).emitted|
    ensures Step(s, raw).emitted[..|s.emitted|] == s.emitted
  {
    if IsTrigger(Strip(raw)) {
      PrefixOfAppend(s.emitted, Closed(s.current));
    } else {
      Whole(s.emitted);
    }
  }

  /** Blank lines leave the accumulator unchanged. */
  lemma {:induction false} RunBlank(s: ParserState, lines: seq<string>)
    requires forall i :: 0 <= i < |lines| ==> AllSpace(lines[i])
    ensures Run(s, lines) == s
    decreases |lines|
  {
    if |lines| > 0 {
      RunBlank(Step(s, lines[0]), lines[1..]);
    }
  }

  /** A line and the same line with whitespace around it act alike. */
  lemma StepPadded(s: ParserState, w1: string, line: string, w2: string)
    requires AllSpace(w1) && AllSpace(w2)
    ensures Step(s, w1 + line + w2) == Step(s, line)
  {
    StripOfSpaceSuffix(w1 + line, w2);
    StripOfSpacePrefix(w1, line);
    assert Strip(w1 + line + w2) == Strip(line);
  }

  lemma RunSkipsBlank(s: ParserState, blank: seq<string>, rest: seq<string>)
    requires forall i :: 0 <= i < |blank| ==> AllSpace(blank[i])
    ensures Run(s, blank + rest) == Run(s, rest)
  {
    RunAppend(s, blank, rest);
    RunBlank(s, blank);
  }

  lemma RunPaddedHead(s: ParserState, w: string, X: seq<string>)
    requires AllSpace(w) && |X| >= 1
    ensures Run(s, [w + X[0]] + X[1..]) == Run(s, X)
  {
    var Y := [w + X[0]] + X[1..];
    assert Y[0] == w + X[0] && Y[1..] == X[1..];
    StepPadded(s, w, X[0], "");
    assert w + X[0] + "" == w + X[0];
  }

  lemma RunSingle(s: ParserState, line: string)
    ensures Run(s, [line]) == Step(s, line)
  {
    assert [line][1..] == [];
  }

  lemma RunPaddedLast(s: ParserState, X: seq<string>, w: string)
    requires AllSpace(w) && |X| >= 1
    ensures Run(s, X[..|X| - 1] + [X[|X| - 1] + w]) == Run(s, X)
  {
    var m := |X| - 1;
    assert X[..m] + [X[m]] == X;
    assert "" + X[m] + w == X[m] + w;
    var t := Run(s, X[..m]);
    RunAppend(s, X[..m], [X[m] + w]);
    RunAppend(s, X[..m], [X[m]]);
    RunSingle(t, X[m] + w);
    RunSingle(t, X[m]);
    StepPadded(t, "", X[m], w);
  }

  /** Whitespace at the front of the text changes nothing. */
  lemma RunLeadingSpace(s: ParserState, w: string, x: string)
    requires AllSpace(w)
    ensures Run(s, Split(w + x, '\n')) == Run(s, Split(x, '\n'))
  {
    var W := Split(w, '\n');
    var X := Split(x, '\n');
    var n := |W| - 1;
    SplitAppend(w, x, '\n');
    GlueFront(W, X);
    SplitOfSpace(w, '\n');
    BlankPrefix(W, n);
    RunSkipsBlank(s, W[..n], [W[n] + X[0]] + X[1..]);
    RunPaddedHead(s, W[n], X);
  }

  /** Whitespace at the back of the text changes nothing. */
  lemma RunTrailingSpace(s: ParserState, x: string, w: string)
    requires AllSpace(w)
    ensures Run(s, Split(x + w, '\n')) == Run(s, Split(x, '\n'))
  {
    var W := Split(w, '\n');
    var X := Split(x, '\n');
    var m := |X| - 1;
    SplitAppend(x, w, '\n');
    var head := X[..m] + [X[m] + W[0]];
    assert Split(x + w, '\n') == head + W[1..];
    SplitOfSpace(w, '\n');
    BlankSuffix(W);
    RunAppend(s, head, W[1..]);
    RunBlank(Run(s, head), W[1..]);
    RunPaddedLast(s, X, W[0]);
  }

  lemma GlueFront(W: seq<string>, X: seq<string>)
    requires |W| >= 1 && |X| >= 1
    ensures Glue(W, X) == W[..|W| - 1] + ([W[|W| - 1] + X[0]] + X[1..])
  {
    AppendAssoc(W[..|W| - 1], [W[|W| - 1] + X[0]], X[1..]);
  }

  lemma BlankPrefix(W: seq<string>, n: nat)
    requires n <= |W|
    requires forall i :: 0 <= i < |W| ==> AllSpace(W[i])
    ensures forall i :: 0 <= i < |W[..n]| ==> AllSpace(W[..n][i])
  {
  }

  lemma BlankSuffix(W: seq<string>)
    requires |W| >= 1
    requires forall i :: 0 <= i < |W| ==> AllSpace(W[i])
    ensures forall i :: 0 <= i < |W[1..]| ==> AllSpace(W[1..][i])
  {
    forall i | 0 <= i < |W[1..]| ensures AllSpace(W[1..][i]) {
      assert W[1..][i] == W[i + 1];
    }
  }

  lemma RunPadded(s: ParserState, lead: string, core: string, trail: string)
    requires AllSpace(lead) && AllSpace(trail)
    ensures Run(s, Split(lead + core + trail, '\n')) == Run(s, Split(core, '\n'))
  {
    AppendAssoc(lead, core, trail);
    RunLeadingSpace(s, lead, core + trail);
    RunTrailingSpace(s, core, trail);
  }

  /**
   * Stripping the whole text first (`text.strip()`) makes no difference:
   * the parse is the fold over the raw lines of the text.
   */
  lemma ParseIsFoldOfLines(text: string)
    ensures Parse(text) == ParseLines(Split(text, '\n'))
  {
    var lead, trail := StripDecompose(text);
    RunPadded(Start, lead, Strip(text), trail);
    assert Parse(text) == Finish(Run(Start, Split(Strip(text), '\n')));
    assert ParseLines(Split(text, '\n')) == Finish(Run(Start, Split(text, '\n')));
  }

  /**
   * The title of a `**`-free line with a colon is the stripped text after
   * the first colon: `Title: Revenue` and `Insight 2: Revenue` both give
   * `Revenue`.
   */
  lemma TitleAfterColon(key: string, rest: string)
    requires ':' !in key && NoDoubleStar(key + [':'] + rest)
    ensures TitleOf(key + [':'] + rest) == Strip(rest)
  {
    RemoveDoubleStarsOfFree(key + [':'] + rest);
    AfterFirstOf(key, ':', rest);
  }

  /** The title of a `**`-free line without a colon is the whole line, stripped. */
  lemma TitleWithoutColon(line: string)
    requires ':' !in line && NoDoubleStar(line)
    ensures TitleOf(line) == Strip(line)
  {
    RemoveDoubleStarsOfFree(line);
  }

  /** On a `**`-free line the title is read like a field value. */
  lemma TitleOfFree(line: string)
    requires NoDoubleStar(line)
    ensures TitleOf(line) == ValueOf(line)
  {
    RemoveDoubleStarsOfFree(line);
  }

  /**
   * The leftmost `**` of a line makes no difference to its title. Applied
   * until no pair is left, then `TitleOfFree`, this fixes the title of
   * every line.
   */
  lemma TitleDropsPair(p: string, x: string)
    requires NoDoubleStar(p) && (|p| == 0 || p[|p| - 1] != '*')
    ensures TitleOf(p + "**" + x) == TitleOf(p + x)
  {
    RemoveDoubleStarsAtFirstPair(p, x);
    RemoveDoubleStarsAfterFree(p, x);
  }

  /**
   * A bold heading `**t**` is a trigger, and its title is `t` stripped when
   * `t` has no colon; a `t` ending in one `*` keeps it (`**a***` gives `a*`).
   */
  lemma BoldTitle(t: string)
    requires ':' !in t && NoDoubleStar(t)
    ensures IsTrigger("**" + t + "**")
    ensures TitleOf("**" + t + "**") == Strip(t)
  {
    var line := "**" + t + "**";
    assert line[..2] == "**";
    assert RemoveDoubleStars(line) == t by {
      assert line[2..] == t + "**";
      ClosingPairRemoved(t);
    }
  }
}
