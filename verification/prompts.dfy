/** The three prompt builders `_create_summary_prompt`, `_create_analysis_prompt` and
    `_create_questions_prompt`: an instruction line, a blank line, the first chunks numbered
    from 1 one per line, a blank line, and the requested output format. */
module Prompts {
  import opened Strings
  import opened Completion

  const NewLine: char := '\n'
  const BlankLine: string := "\n\n"
  const NumberSeparator: string := ". "

  /** How many chunks each prompt lists. */
  const SummaryWindow: nat := 10
  const AnalysisWindow: nat := 15
  const QuestionsWindow: nat := 12

  const SummaryLead: string := "请基于以下文档内容，生成一个结构化的总结要点："
  const AnalysisLead: string := "请对以下文档内容进行详细分析："
  const QuestionsLead: string := "基于以下文档内容，请创建多种题型的测试题目："

  /** The lines of the requested output format, after the listed chunks. */
  const SummaryFormat: seq<string> := [
    "请按照以下格式输出：", "## 主要内容概述", "[简要概述文档的核心内容]", "",
    "## 关键要点", "1. [要点1]", "2. [要点2]", "3. [要点3]", "...", "",
    "## 重要结论", "[总结文档的主要结论或建议]", "",
    "请确保要点清晰、有条理，涵盖文档的核心信息。"]

  const AnalysisFormat: seq<string> := [
    "请按照以下结构进行分析：", "## 内容深度解析", "[对文档内容进行深入分析和解读]", "",
    "## 核心观点分析", "[分析文档中的主要观点和论据]", "",
    "## 逻辑结构分析", "[分析文档的组织结构和逻辑关系]", "",
    "## 价值与意义", "[分析文档的价值、意义和潜在应用]", "",
    "请提供深入、专业的分析，突出文档的独特见解和价值。"]

  const QuestionsFormat: seq<string> := [
    "请创建以下类型的题目：", "",
    "## 选择题（5道）", "1. [题目]", "   A. [选项A]", "   B. [选项B]", "   C. [选项C]",
    "   D. [选项D]", "   正确答案：[正确选项]", "",
    "## 判断题（3道）", "1. [陈述] (正确/错误)", "2. [陈述] (正确/错误)", "3. [陈述] (正确/错误)", "",
    "## 简答题（2道）", "1. [问题]", "   [参考答案要点]", "",
    "## 填空题（3道）", "1. [包含空格的句子]，正确答案：[填空内容]", "",
    "请确保题目覆盖文档的核心内容，难度适中，并包含正确答案。"]

  /** `chunks[:n]`. */
  function Window(chunks: seq<string>, n: nat): (w: seq<string>)
    ensures |w| == if |chunks| < n then |chunks| else n
    ensures w == chunks[..|w|]
  {
    if |chunks| < n then chunks else chunks[..n]
  }

  /** `f"{i+1}. {chunk}"`. */
  function NumberedLine(i: nat, chunk: string): string
  {
    NatToString(i + 1) + NumberSeparator + chunk
  }

  function NumberedLines(w: seq<string>): (ls: seq<string>)
    ensures |ls| == |w|
  {
    seq(|w|, i requires 0 <= i < |w| => NumberedLine(i, w[i]))
  }

  /** The `context` variable: the numbered window joined by newlines. */
  function Context(chunks: seq<string>, n: nat): string
  {
    JoinWith(NumberedLines(Window(chunks, n)), [NewLine])
  }

  /** The f-string shared by the three builders. */
  function Prompt(lead: string, chunks: seq<string>, n: nat, format: seq<string>): string
  {
    lead + BlankLine + Context(chunks, n) + BlankLine + JoinWith(format, [NewLine])
  }

  /** `_create_summary_prompt(chunks)`: the summary instruction, the first ten chunks
      numbered, then the summary format. */
  function SummaryPrompt(chunks: seq<string>): string
  {
    Prompt(SummaryLead, chunks, SummaryWindow, SummaryFormat)
  }

  /** `_create_analysis_prompt(chunks)`: the analysis instruction, the first fifteen chunks
      numbered, then the analysis format. */
  function AnalysisPrompt(chunks: seq<string>): string
  {
    Prompt(AnalysisLead, chunks, AnalysisWindow, AnalysisFormat)
  }

  /** `_create_questions_prompt(chunks)`: the questions instruction, the first twelve chunks
      numbered, then the questions format. */
  function QuestionsPrompt(chunks: seq<string>): string
  {
    Prompt(QuestionsLead, chunks, QuestionsWindow, QuestionsFormat)
  }

  // ---------------------------------------------------------------------------------------
  // The prompt depends on the leading chunks only

  /** Chunks after the window never reach the prompt. */
  lemma PromptUsesWindowOnly(lead: string, chunks: seq<string>, more: seq<string>, n: nat,
                             format: seq<string>)
    requires n <= |chunks|
    ensures Prompt(lead, chunks + more, n, format) == Prompt(lead, chunks, n, format)
  {
    assert Window(chunks + more, n) == Window(chunks, n);
  }

  // ---------------------------------------------------------------------------------------
  // The numbered lines can be read back

  predicate NoNewLine(s: string)
  {
    forall i :: 0 <= i < |s| ==> s[i] != NewLine
  }

  lemma NumberedLineHasNoNewLine(i: nat, chunk: string)
    requires NoNewLine(chunk)
    ensures NoNewLine(NumberedLine(i, chunk))
  {
    var p := NatToString(i + 1) + NumberSeparator;
    assert NumberedLine(i, chunk) == p + chunk;
    var d := NatToString(i + 1);
    assert forall j :: 0 <= j < |d| ==> IsDigit(d[j]);
  }

  /** Splitting the context on newlines gives back the numbered lines, one per listed chunk,
      when no chunk holds a newline; each line starts with its number, counted from 1. */
  lemma ContextLines(chunks: seq<string>, n: nat)
    requires forall k :: 0 <= k < |chunks| ==> NoNewLine(chunks[k])
    ensures var w := Window(chunks, n);
      |w| > 0 ==> SplitOn(Context(chunks, n), {NewLine}) == NumberedLines(w)
    ensures var w := Window(chunks, n);
      forall k :: 0 <= k < |w| ==> NumberedLines(w)[k] == NatToString(k + 1) + NumberSeparator + chunks[k]
  {
    var w := Window(chunks, n);
    var ls := NumberedLines(w);
    if |w| > 0 {
      forall k | 0 <= k < |ls|
        ensures NoneIn(ls[k], {NewLine})
      {
        NumberedLineHasNoNewLine(k, w[k]);
      }
      SplitJoin(ls, {NewLine}, NewLine);
    }
  }

  /** The number written in front of the `k`-th listed chunk is `k + 1`. */
  lemma LineNumber(k: nat, chunk: string)
    ensures var d := NatToString(k + 1);
      NumberedLine(k, chunk)[..|d|] == d && DigitsValue(d) == k + 1
  {
    NatToStringRoundTrip(k + 1);
  }

  // ---------------------------------------------------------------------------------------
  // Which canned reply each prompt gets in simulation mode

  /** Some chunk of `w` contains `m`. */
  predicate Mentions(w: seq<string>, m: string)
  {
    exists k :: 0 <= k < |w| && Contains(w[k], m)
  }

  /** No occurrence of `c` in `s`. */
  predicate Lacks(s: string, c: char)
  {
    forall i :: 0 <= i < |s| ==> s[i] != c
  }

  /** A keyword the prompt structure cannot produce by itself: non-empty, without newline,
      and not starting with a digit, '.' or ' '. */
  predicate Keyword(m: string)
  {
    |m| > 0 && NoNewLine(m) && !IsDigit(m[0]) && m[0] != '.' && m[0] != ' '
  }

  /** A keyword occurs in a prompt exactly when it occurs in the instruction line, in one of
      the listed chunks, or in the format lines. */
  lemma PromptContains(lead: string, chunks: seq<string>, n: nat, format: seq<string>,
                       m: string)
    requires Keyword(m)
    ensures Contains(Prompt(lead, chunks, n, format), m) <==>
      Contains(lead, m) || Mentions(Window(chunks, n), m) || Mentions(format, m)
  {
    var ctx := Context(chunks, n);
    var tail := JoinWith(format, [NewLine]);
    PromptIsJoin(lead, ctx, tail);
    assert Prompt(lead, chunks, n, format) == lead + BlankLine + ctx + BlankLine + tail;
    ContainsJoin([lead, "", ctx, "", tail], NewLine, m);
    FivePartsMention(lead, ctx, tail, m);
    ContextContains(Window(chunks, n), m);
    ContainsJoin(format, NewLine, m);
  }

  /** The prompt is its five parts joined by newlines, the two blank parts making the blank
      lines. */
  lemma PromptIsJoin(lead: string, ctx: string, tail: string)
    ensures lead + BlankLine + ctx + BlankLine + tail == JoinWith([lead, "", ctx, "", tail], [NewLine])
  {
    var nl: string := [NewLine];
    var j1 := JoinWith([tail], nl);
    var j2 := JoinWith(["", tail], nl);
    var j3 := JoinWith([ctx, "", tail], nl);
    var j4 := JoinWith(["", ctx, "", tail], nl);
    var j5 := JoinWith([lead, "", ctx, "", tail], nl);
    assert j1 == tail;
    assert j2 == nl + tail by {
      JoinWithCons("", [tail], nl);
      assert ["", tail] == [""] + [tail];
      assert "" + nl + j1 == nl + tail;
    }
    assert j3 == ctx + nl + nl + tail by {
      JoinWithCons(ctx, ["", tail], nl);
      assert [ctx, "", tail] == [ctx] + ["", tail];
    }
    assert j4 == nl + ctx + nl + nl + tail by {
      JoinWithCons("", [ctx, "", tail], nl);
      assert ["", ctx, "", tail] == [""] + [ctx, "", tail];
      assert "" + nl + j3 == nl + (ctx + nl + nl + tail);
    }
    assert j5 == lead + nl + j4 by {
      JoinWithCons(lead, ["", ctx, "", tail], nl);
      assert [lead, "", ctx, "", tail] == [lead] + ["", ctx, "", tail];
    }
    assert BlankLine == nl + nl;
  }

  /** A keyword is in one of the five parts exactly when it is in one of the three
      non-blank ones. */
  lemma FivePartsMention(lead: string, ctx: string, tail: string, m: string)
    requires |m| > 0
    ensures Mentions([lead, "", ctx, "", tail], m) <==>
      Contains(lead, m) || Contains(ctx, m) || Contains(tail, m)
  {
    var parts := [lead, "", ctx, "", tail];
    assert parts[0] == lead && parts[1] == "" && parts[2] == ctx && parts[3] == "" && parts[4] == tail;
    assert !Contains("", m);
    if Mentions(parts, m) {
      var k :| 0 <= k < |parts| && Contains(parts[k], m);
      assert k != 1 && k != 3;
    }
  }

  /** A keyword occurs in the context exactly when it occurs in a listed chunk: the line
      numbers cannot contribute to it. */
  lemma ContextContains(w: seq<string>, m: string)
    requires Keyword(m)
    ensures Contains(JoinWith(NumberedLines(w), [NewLine]), m) <==> Mentions(w, m)
  {
    var ls := NumberedLines(w);
    ContainsJoin(ls, NewLine, m);
    forall k | 0 <= k < |w|
      ensures Contains(ls[k], m) <==> Contains(w[k], m)
    {
      var d := NatToString(k + 1);
      var p := d + NumberSeparator;
      assert ls[k] == p + w[k];
      forall i | 0 <= i < |p|
        ensures p[i] != m[0]
      {
        if i < |d| {
          assert IsDigit(d[i]);
        }
      }
      ContainsAfterPrefix(p, w[k], m);
    }
    if Mentions(w, m) {
      var k :| 0 <= k < |w| && Contains(w[k], m);
      assert Contains(ls[k], m);
    }
  }

  /** No line of a format holds the first character of the keyword, so the format does not
      mention it. */
  lemma FormatLacks(format: seq<string>, m: string)
    requires |m| > 0 && forall k :: 0 <= k < |format| ==> Lacks(format[k], m[0])
    ensures !Mentions(format, m)
  {
    forall k | 0 <= k < |format|
      ensures !Contains(format[k], m)
    {
      AbsentFirst(format[k], m);
    }
  }

  lemma KeywordsAreKeywords()
    ensures Keyword(SummaryMarker) && Keyword(AnalysisMarker)
    ensures SummaryMarker[0] == '总' && AnalysisMarker[0] == '详'
  {
  }

  /** The summary instruction itself asks for "总结要点", so the summary prompt always gets
      the canned summary. */
  lemma SummaryPromptReply(chunks: seq<string>)
    ensures SimulatedReply(SummaryPrompt(chunks)) == MockSummary
  {
    KeywordsAreKeywords();
    assert SummaryLead[18..22] == SummaryMarker;
    ContainsAt(SummaryLead, SummaryMarker, 18);
    PromptContains(SummaryLead, chunks, SummaryWindow, SummaryFormat, SummaryMarker);
  }

  lemma AnalysisLeadAsks()
    ensures Contains(AnalysisLead, AnalysisMarker)
  {
    assert AnalysisLead[10..14] == AnalysisMarker;
    ContainsAt(AnalysisLead, AnalysisMarker, 10);
  }

  lemma AnalysisLeadLacksSummary()
    ensures !Contains(AnalysisLead, SummaryMarker)
  {
    KeywordsAreKeywords();
    assert Lacks(AnalysisLead, '总');
    AbsentFirst(AnalysisLead, SummaryMarker);
  }

  lemma AnalysisFormatHeadLacks()
    ensures |AnalysisFormat| == 14
    ensures forall k :: 0 <= k < 7 ==> Lacks(AnalysisFormat[k], '总')
  {
  }

  lemma AnalysisFormatTailLacks()
    ensures forall k :: 7 <= k < 14 ==> Lacks(AnalysisFormat[k], '总')
  {
  }

  lemma AnalysisFormatLacksSummary()
    ensures !Mentions(AnalysisFormat, SummaryMarker)
  {
    KeywordsAreKeywords();
    AnalysisFormatHeadLacks();
    AnalysisFormatTailLacks();
    FormatLacks(AnalysisFormat, SummaryMarker);
  }

  /** What the analysis instruction and format say, keyword by keyword. */
  lemma AnalysisTextFacts()
    ensures Contains(AnalysisLead, AnalysisMarker)
    ensures !Contains(AnalysisLead, SummaryMarker) && !Mentions(AnalysisFormat, SummaryMarker)
  {
    AnalysisLeadAsks();
    AnalysisLeadLacksSummary();
    AnalysisFormatLacksSummary();
  }

  /** Where the two keywords occur in the analysis prompt. */
  lemma AnalysisPromptKeywords(chunks: seq<string>)
    ensures Contains(AnalysisPrompt(chunks), SummaryMarker)
        <==> Mentions(Window(chunks, AnalysisWindow), SummaryMarker)
    ensures Contains(AnalysisPrompt(chunks), AnalysisMarker)
  {
    KeywordsAreKeywords();
    AnalysisTextFacts();
    PromptContains(AnalysisLead, chunks, AnalysisWindow, AnalysisFormat, SummaryMarker);
    PromptContains(AnalysisLead, chunks, AnalysisWindow, AnalysisFormat, AnalysisMarker);
  }

  /** The analysis prompt gets the canned summary when one of its first 15 chunks contains
      "总结要点", and the canned analysis otherwise. */
  lemma AnalysisPromptReply(chunks: seq<string>)
    ensures SimulatedReply(AnalysisPrompt(chunks))
         == if Mentions(Window(chunks, AnalysisWindow), SummaryMarker) then MockSummary else MockAnalysis
  {
    AnalysisPromptKeywords(chunks);
  }

  /** The format lines of the questions prompt, a few at a time, lack the first characters
      of the summary and analysis markers. */
  lemma QuestionsFormatHeadLacks(c: char)
    requires c == '总' || c == '详'
    ensures |QuestionsFormat| == 23
    ensures forall k :: 0 <= k < 9 ==> Lacks(QuestionsFormat[k], c)
  {
  }

  lemma QuestionsFormatMiddleLacks(c: char)
    requires c == '总' || c == '详'
    ensures forall k :: 9 <= k < 16 ==> Lacks(QuestionsFormat[k], c)
  {
  }

  lemma QuestionsFormatEndLacks(c: char)
    requires c == '总' || c == '详'
    ensures forall k :: 16 <= k < 20 ==> Lacks(QuestionsFormat[k], c)
  {
  }

  lemma QuestionsFormatTailLacks(c: char)
    requires c == '总' || c == '详'
    ensures forall k :: 20 <= k < 23 ==> Lacks(QuestionsFormat[k], c)
  {
  }

  lemma QuestionsFormatLacks(c: char)
    requires c == '总' || c == '详'
    ensures forall k :: 0 <= k < |QuestionsFormat| ==> Lacks(QuestionsFormat[k], c)
  {
    QuestionsFormatHeadLacks(c);
    QuestionsFormatMiddleLacks(c);
    QuestionsFormatEndLacks(c);
    QuestionsFormatTailLacks(c);
  }

  lemma QuestionsFormatLacksSummary()
    ensures !Mentions(QuestionsFormat, SummaryMarker)
  {
    KeywordsAreKeywords();
    QuestionsFormatLacks('总');
    FormatLacks(QuestionsFormat, SummaryMarker);
  }

  lemma QuestionsFormatLacksAnalysis()
    ensures !Mentions(QuestionsFormat, AnalysisMarker)
  {
    KeywordsAreKeywords();
    QuestionsFormatLacks('详');
    FormatLacks(QuestionsFormat, AnalysisMarker);
  }

  lemma QuestionsLeadAsks()
    ensures Contains(QuestionsLead, QuestionsMarker)
  {
    assert QuestionsLead[19..21] == QuestionsMarker;
    ContainsAt(QuestionsLead, QuestionsMarker, 19);
  }

  lemma QuestionsLeadLacksOthers()
    ensures !Contains(QuestionsLead, SummaryMarker) && !Contains(QuestionsLead, AnalysisMarker)
  {
    KeywordsAreKeywords();
    assert Lacks(QuestionsLead, '总') && Lacks(QuestionsLead, '详');
    AbsentFirst(QuestionsLead, SummaryMarker);
    AbsentFirst(QuestionsLead, AnalysisMarker);
  }

  /** What the questions instruction and format say, keyword by keyword. */
  lemma QuestionsTextFacts()
    ensures Contains(QuestionsLead, QuestionsMarker)
    ensures !Contains(QuestionsLead, SummaryMarker) && !Mentions(QuestionsFormat, SummaryMarker)
    ensures !Contains(QuestionsLead, AnalysisMarker) && !Mentions(QuestionsFormat, AnalysisMarker)
  {
    QuestionsLeadAsks();
    QuestionsLeadLacksOthers();
    QuestionsFormatLacksSummary();
    QuestionsFormatLacksAnalysis();
  }

  /** A keyword of the instruction line is in the prompt. */
  lemma LeadInPrompt(lead: string, chunks: seq<string>, n: nat, format: seq<string>, m: string)
    requires Contains(lead, m)
    ensures Contains(Prompt(lead, chunks, n, format), m)
  {
    var p := Prompt(lead, chunks, n, format);
    assert lead + p[|lead|..] == p;
    ContainsAppend(lead, p[|lead|..], m);
  }

  /** Where the keywords occur in the questions prompt. */
  lemma QuestionsPromptKeywords(chunks: seq<string>)
    ensures var w := Window(chunks, QuestionsWindow);
      && (Contains(QuestionsPrompt(chunks), SummaryMarker) <==> Mentions(w, SummaryMarker))
      && (Contains(QuestionsPrompt(chunks), AnalysisMarker) <==> Mentions(w, AnalysisMarker))
      && Contains(QuestionsPrompt(chunks), QuestionsMarker)
  {
    KeywordsAreKeywords();
    QuestionsTextFacts();
    PromptContains(QuestionsLead, chunks, QuestionsWindow, QuestionsFormat, SummaryMarker);
    PromptContains(QuestionsLead, chunks, QuestionsWindow, QuestionsFormat, AnalysisMarker);
    LeadInPrompt(QuestionsLead, chunks, QuestionsWindow, QuestionsFormat, QuestionsMarker);
  }

  /** The questions prompt gets the canned summary when one of its first 12 chunks contains
      "总结要点", else the canned analysis when one contains "详细分析", and the canned
      questions otherwise: its instruction asks for "题目". */
  lemma QuestionsPromptReply(chunks: seq<string>)
    ensures var w := Window(chunks, QuestionsWindow);
      SimulatedReply(QuestionsPrompt(chunks))
        == if Mentions(w, SummaryMarker) then MockSummary
           else if Mentions(w, AnalysisMarker) then MockAnalysis
           else MockQuestions
  {
    QuestionsPromptKeywords(chunks);
  }
}
