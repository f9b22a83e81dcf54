/** `to_markdown`: the Markdown stored beside each generated artifact. It
    collects lines and blocks in a list, joins them with newlines and
    strips the result. A section appears only when its list is non-empty,
    and sections keep a fixed order. */
module Render {
  import opened Seqs
  import opened Strings

  /** The parts of the artifact JSON the renderer reads. A key that is
      missing, or whose list is empty or null, is `None` or the empty
      list; both read the same. */
  datatype Term = Term(term: Option<string>, definition: Option<string>)
  datatype McqItem = McqItem(question: Option<string>, options: Option<seq<string>>,
                             answerIndex: Option<int>, explanation: Option<string>)
  datatype ShortItem = ShortItem(question: Option<string>, answer: Option<string>)
  datatype CodingItem = CodingItem(prompt: Option<string>, constraints: Option<seq<string>>,
                                   solutionOutline: Option<seq<string>>, tests: Option<seq<string>>)
  datatype Data = Data(
    overview: Option<string>,
    concepts: Option<seq<string>>,
    terms: Option<seq<Term>>,
    pitfalls: Option<seq<string>>,
    keyTakeaways: Option<seq<string>>,
    topTakeaways: Option<seq<string>>,
    commonMistakes: Option<seq<string>>,
    whenToUse: Option<seq<string>>,
    whenNotToUse: Option<seq<string>>,
    mcq: Option<seq<McqItem>>,
    shortAnswer: Option<seq<ShortItem>>,
    coding: Option<seq<CodingItem>>,
    objective: Option<string>,
    prereqs: Option<seq<string>>,
    steps: Option<seq<string>>,
    deliverables: Option<seq<string>>,
    stretchGoals: Option<seq<string>>,
    rubric: Option<seq<string>>)

  /** `d.get(k, '')`. */
  function Str(x: Option<string>): string {
    if x.Some? then x.value else ""
  }

  /** `d.get(k) or []`. */
  function List<T>(x: Option<seq<T>>): seq<T> {
    if x.Some? then x.value else []
  }

  /** `[f"- {x}" for x in items]`. */
  function Bullets(items: seq<string>): (lines: seq<string>)
    ensures |lines| == |items|
    ensures forall i :: 0 <= i < |items| ==> lines[i] == "- " + items[i]
  {
    seq(|items|, i requires 0 <= i < |items| => "- " + items[i])
  }

  /** A heading line and its list lines. */
  datatype Section = Section(heading: string, lines: seq<string>)

  /** `heading + "\n".join(lines) + "\n"`. */
  function Block(s: Section): string {
    s.heading + Join(s.lines, "\n") + "\n"
  }

  /** The positions of the sections with a non-empty list, in order. */
  function Kept(ss: seq<Section>): (ks: seq<nat>)
    ensures forall j :: 0 <= j < |ks| ==> ks[j] < |ss| && ss[ks[j]].lines != []
    ensures forall j, k :: 0 <= j < k < |ks| ==> ks[j] < ks[k]
    ensures forall i :: 0 <= i < |ss| && ss[i].lines != [] ==> i in ks
  {
    if ss == [] then []
    else
      var n := |ss| - 1;
      var init := Kept(ss[..n]);
      assert forall i :: 0 <= i < n ==> ss[..n][i] == ss[i];
      if ss[n].lines != [] then init + [n] else init
  }

  lemma KeptStep(ss: seq<Section>, i: nat)
    requires i < |ss|
    ensures Kept(ss[..i + 1]) == Kept(ss[..i]) + if ss[i].lines != [] then [i] else []
  {
    assert ss[..i + 1][..i] == ss[..i];
  }

  /** `md` holds the blocks of the non-empty sections among the first `k`. */
  ghost predicate Rendered(md: seq<string>, ss: seq<Section>, k: nat)
    requires k <= |ss|
  {
    |md| == |Kept(ss[..k])| &&
    forall j :: 0 <= j < |md| ==> md[j] == Block(ss[Kept(ss[..k])[j]])
  }

  /** `if items: md.append(block)` */
  method AppendSection(md: seq<string>, ss: seq<Section>, k: nat) returns (r: seq<string>)
    requires k < |ss| && Rendered(md, ss, k)
    ensures Rendered(r, ss, k + 1)
    ensures r == md + if ss[k].lines != [] then [Block(ss[k])] else []
  {
    KeptStep(ss, k);
    r := md;
    if ss[k].lines != [] {
      r := r + [Block(ss[k])];
    }
  }

  /** The blocks of the sections whose list is non-empty, in order. */
  function SectionBlocks(ss: seq<Section>): seq<string> {
    seq(|Kept(ss)|, j requires 0 <= j < |Kept(ss)| => Block(ss[Kept(ss)[j]]))
  }

  /** The `for k, title in [...]` loops: one block per section whose list
      is non-empty, in the order of the sections. */
  method Blocks(ss: seq<Section>) returns (md: seq<string>)
    ensures |md| == |Kept(ss)|
    ensures forall j :: 0 <= j < |md| ==> md[j] == Block(ss[Kept(ss)[j]])
    ensures md == SectionBlocks(ss)
  {
    md := [];
    for i := 0 to |ss|
      invariant Rendered(md, ss, i)
    {
      md := AppendSection(md, ss, i);
    }
    assert ss[..|ss|] == ss;
  }

  function TermLines(terms: seq<Term>): (lines: seq<string>)
    ensures |lines| == |terms|
    ensures forall i :: 0 <= i < |terms| ==>
              lines[i] == "- **" + Str(terms[i].term) + "**: " + Str(terms[i].definition)
  {
    seq(|terms|, i requires 0 <= i < |terms| => "- **" + Str(terms[i].term) + "**: " + Str(terms[i].definition))
  }

  /** The four optional sections of a summary, in order. */
  function SummarySections(d: Data): seq<Section> {
    [Section("## Concepts\n", Bullets(List(d.concepts))),
     Section("## Terms\n", TermLines(List(d.terms))),
     Section("## Pitfalls\n", Bullets(List(d.pitfalls))),
     Section("## Key takeaways\n", Bullets(List(d.keyTakeaways)))]
  }

  /** The summary document before joining: the title with the stripped
      overview, then the blocks of the non-empty sections. */
  function SummaryDoc(d: Data): seq<string> {
    ["# Summary" + ("\n\n" + Strip(Str(d.overview)) + "\n")] + SectionBlocks(SummarySections(d))
  }

  /** The summary's blocks: the title with the stripped overview, then each
      non-empty section in order. */
  method SummaryBlocks(d: Data) returns (md: seq<string>)
    ensures md == SummaryDoc(d)
    ensures md != [] && md[0] == "# Summary" + ("\n\n" + Strip(Str(d.overview)) + "\n")
    ensures |md| == 1 + |Kept(SummarySections(d))|
    ensures forall j :: 0 <= j < |md| - 1 ==> md[1 + j] == Block(SummarySections(d)[Kept(SummarySections(d))[j]])
  {
    var blocks := Blocks(SummarySections(d));
    md := ["# Summary" + ("\n\n" + Strip(Str(d.overview)) + "\n")] + blocks;
  }

  function TakeawaySections(d: Data): seq<Section> {
    [Section("## Top takeaways\n", Bullets(List(d.topTakeaways))),
     Section("## Common mistakes\n", Bullets(List(d.commonMistakes))),
     Section("## When to use\n", Bullets(List(d.whenToUse))),
     Section("## When not to use\n", Bullets(List(d.whenNotToUse)))]
  }

  /** The takeaways document before joining. */
  function TakeawaysDoc(d: Data): seq<string> {
    ["# Key Takeaways\n"] + SectionBlocks(TakeawaySections(d))
  }

  function LabSections(d: Data): seq<Section> {
    [Section("## Prerequisites\n", Bullets(List(d.prereqs))),
     Section("## Steps\n", Bullets(List(d.steps))),
     Section("## Deliverables\n", Bullets(List(d.deliverables))),
     Section("## Stretch goals\n", Bullets(List(d.stretchGoals))),
     Section("## Rubric\n", Bullets(List(d.rubric)))]
  }

  function Min(a: int, b: int): int { if a <= b then a else b }

  /** `int(q.get('answer_index', 0))`. */
  function AnswerIndex(q: McqItem): int {
    if q.answerIndex.Some? then q.answerIndex.value else 0
  }

  /** At most the first four options, numbered from 1. */
  function OptionLines(opts: seq<string>): seq<string> {
    seq(Min(4, |opts|), j requires 0 <= j < Min(4, |opts|) => "- (" + IntToString(j + 1) + ") " + opts[j])
  }

  /** The lines of multiple-choice question number `i`. */
  function McqItemLines(i: int, q: McqItem): seq<string> {
    ["### " + IntToString(i) + ". " + Str(q.question) + "\n"] + OptionLines(List(q.options)) +
    ["**Answer:** " + IntToString(AnswerIndex(q) + 1) + "\n", "**Explanation:** " + Str(q.explanation) + "\n"]
  }

  /** One multiple-choice question numbered `i`: at most its first four
      options, numbered from 1, then the answer printed 1-based and the
      explanation. */
  method McqLines(i: int, q: McqItem) returns (lines: seq<string>)
    ensures lines == McqItemLines(i, q)
  {
    lines := ["### " + IntToString(i) + ". " + Str(q.question) + "\n"];
    ghost var head := lines;
    var opts := List(q.options);
    var shown := opts[..Min(4, |opts|)];
    ghost var all := OptionLines(opts);
    for j := 0 to |shown|
      invariant lines == head + all[..j]
    {
      TakeOneMore(all, j);
      AppendPart(head, all[..j], [all[j]], all[..j + 1]);
      lines := lines + ["- (" + IntToString(j + 1) + ") " + shown[j]];
    }
    assert all[..|shown|] == all;
    lines := lines + ["**Answer:** " + IntToString(AnswerIndex(q) + 1) + "\n"];
    lines := lines + ["**Explanation:** " + Str(q.explanation) + "\n"];
  }

  /** Question `i`'s lines: its numbered heading, at most four options
      numbered from 1, the answer printed 1-based, then the explanation. */
  lemma McqItemShape(i: int, q: McqItem)
    ensures var lines := McqItemLines(i, q);
            |lines| == 3 + Min(4, |List(q.options)|) &&
            lines[0] == "### " + IntToString(i) + ". " + Str(q.question) + "\n" &&
            (forall j :: 0 <= j < |lines| - 3 ==> lines[1 + j] == "- (" + IntToString(j + 1) + ") " + List(q.options)[j]) &&
            lines[|lines| - 2] == "**Answer:** " + IntToString(AnswerIndex(q) + 1) + "\n" &&
            lines[|lines| - 1] == "**Explanation:** " + Str(q.explanation) + "\n"
  {
  }

  /** The lines of the first `k` questions, numbered from 1. */
  function McqParts(mcq: seq<McqItem>, k: nat): seq<string>
    requires k <= |mcq|
  {
    if k == 0 then [] else McqParts(mcq, k - 1) + McqItemLines(k, mcq[k - 1])
  }

  /** The multiple-choice part of a quiz. */
  function MultipleChoiceLines(mcq: seq<McqItem>): seq<string> {
    if mcq == [] then [] else ["## Multiple Choice\n"] + McqParts(mcq, |mcq|)
  }

  /** The multiple-choice part: nothing for no questions, otherwise its
      heading followed by the questions numbered from 1. */
  method MultipleChoice(mcq: seq<McqItem>) returns (lines: seq<string>)
    ensures lines == MultipleChoiceLines(mcq)
  {
    lines := [];
    if mcq == [] {
      return;
    }
    lines := ["## Multiple Choice\n"];
    for i := 0 to |mcq|
      invariant lines == ["## Multiple Choice\n"] + McqParts(mcq, i)
    {
      var q := McqLines(i + 1, mcq[i]);
      McqPartsStep(mcq, i, q);
      AppendPart(["## Multiple Choice\n"], McqParts(mcq, i), q, McqParts(mcq, i + 1));
      lines := lines + q;
    }
  }

  /** One more question appends its lines. */
  lemma McqPartsStep(mcq: seq<McqItem>, i: nat, q: seq<string>)
    requires i < |mcq| && q == McqItemLines(i + 1, mcq[i])
    ensures McqParts(mcq, i + 1) == McqParts(mcq, i) + q
  {
  }

  /** Lines appended after a fixed head extend the parts after it. */
  lemma AppendPart(head: seq<string>, parts: seq<string>, q: seq<string>, next: seq<string>)
    requires next == parts + q
    ensures (head + parts) + q == head + next
  {
  }

  /** At least three lines per question. */
  lemma {:induction false} McqPartsLength(mcq: seq<McqItem>, k: nat)
    requires k <= |mcq|
    ensures |McqParts(mcq, k)| >= 3 * k
  {
    if k > 0 {
      McqPartsLength(mcq, k - 1);
      McqItemShape(k, mcq[k - 1]);
    }
  }

  /** No questions give no part; otherwise the part opens with its heading
      and has at least three lines per question. */
  lemma MultipleChoiceShape(mcq: seq<McqItem>)
    ensures MultipleChoiceLines(mcq) == [] <==> mcq == []
    ensures mcq != [] ==> MultipleChoiceLines(mcq)[0] == "## Multiple Choice\n" &&
                          |MultipleChoiceLines(mcq)| >= 1 + 3 * |mcq|
  {
    McqPartsLength(mcq, |mcq|);
  }

  /** The lines of the first `k` short-answer questions. */
  function ShortParts(sa: seq<ShortItem>, k: nat): seq<string>
    requires k <= |sa|
  {
    if k == 0 then []
    else ShortParts(sa, k - 1) +
         ["### " + IntToString(k) + ". " + Str(sa[k - 1].question) + "\n", "**Answer:** " + Str(sa[k - 1].answer) + "\n"]
  }

  /** The short-answer part of a quiz. */
  function ShortAnswerLines(sa: seq<ShortItem>): seq<string> {
    if sa == [] then [] else ["## Short Answer\n"] + ShortParts(sa, |sa|)
  }

  /** The short-answer part: its heading, then per question its numbered
      line and its answer. */
  method ShortAnswers(sa: seq<ShortItem>) returns (lines: seq<string>)
    ensures lines == ShortAnswerLines(sa)
  {
    lines := [];
    if sa == [] {
      return;
    }
    lines := ["## Short Answer\n"];
    for i := 0 to |sa|
      invariant lines == ["## Short Answer\n"] + ShortParts(sa, i)
    {
      var pair := ["### " + IntToString(i + 1) + ". " + Str(sa[i].question) + "\n", "**Answer:** " + Str(sa[i].answer) + "\n"];
      assert (["## Short Answer\n"] + ShortParts(sa, i)) + pair == ["## Short Answer\n"] + (ShortParts(sa, i) + pair);
      lines := lines + [pair[0]];
      lines := lines + [pair[1]];
    }
  }

  /** Two lines per question: its numbered heading, then its answer. */
  lemma {:induction false} ShortPartsShape(sa: seq<ShortItem>, k: nat)
    requires k <= |sa|
    ensures |ShortParts(sa, k)| == 2 * k
    ensures forall i :: 0 <= i < k ==>
              ShortParts(sa, k)[2 * i] == "### " + IntToString(i + 1) + ". " + Str(sa[i].question) + "\n" &&
              ShortParts(sa, k)[2 * i + 1] == "**Answer:** " + Str(sa[i].answer) + "\n"
  {
    if k > 0 {
      ShortPartsShape(sa, k - 1);
      var prev := ShortParts(sa, k - 1);
      forall i | 0 <= i < k - 1
        ensures ShortParts(sa, k)[2 * i] == prev[2 * i] && ShortParts(sa, k)[2 * i + 1] == prev[2 * i + 1]
      {
      }
    }
  }

  /** No questions give no part; otherwise the heading, then per question
      its numbered line and its answer. */
  lemma ShortAnswerShape(sa: seq<ShortItem>)
    ensures ShortAnswerLines(sa) == [] <==> sa == []
    ensures sa != [] ==> ShortAnswerLines(sa)[0] == "## Short Answer\n" && |ShortAnswerLines(sa)| == 1 + 2 * |sa|
    ensures forall i :: 0 <= i < |sa| ==>
              ShortAnswerLines(sa)[1 + 2 * i] == "### " + IntToString(i + 1) + ". " + Str(sa[i].question) + "\n" &&
              ShortAnswerLines(sa)[2 + 2 * i] == "**Answer:** " + Str(sa[i].answer) + "\n"
  {
    ShortPartsShape(sa, |sa|);
  }

  function CodingSections(c: CodingItem): seq<Section> {
    [Section("**Constraints:**\n", Bullets(List(c.constraints))),
     Section("**Solution outline:**\n", Bullets(List(c.solutionOutline))),
     Section("**Tests (ideas):**\n", Bullets(List(c.tests)))]
  }

  /** The lines of coding challenge number `i`: its prompt, then the blocks
      of its non-empty lists. */
  function CodingItemLines(i: int, c: CodingItem): seq<string> {
    ["### " + IntToString(i) + ". " + Str(c.prompt) + "\n"] + SectionBlocks(CodingSections(c))
  }

  /** The lines of the first `k` challenges. */
  function CodingParts(coding: seq<CodingItem>, k: nat): seq<string>
    requires k <= |coding|
  {
    if k == 0 then [] else CodingParts(coding, k - 1) + CodingItemLines(k, coding[k - 1])
  }

  /** The coding part of a quiz. */
  function CodingLines(coding: seq<CodingItem>): seq<string> {
    if coding == [] then [] else ["## Coding\n"] + CodingParts(coding, |coding|)
  }

  /** The quiz document before joining. */
  function QuizDoc(d: Data): seq<string> {
    ["# Quiz\n"] + MultipleChoiceLines(List(d.mcq)) + ShortAnswerLines(List(d.shortAnswer)) + CodingLines(List(d.coding))
  }

  /** The coding part: its heading, then per challenge its numbered prompt
      and the blocks of its non-empty lists. */
  method CodingChallenges(coding: seq<CodingItem>) returns (lines: seq<string>)
    ensures lines == CodingLines(coding)
  {
    lines := [];
    if coding == [] {
      return;
    }
    lines := ["## Coding\n"];
    for i := 0 to |coding|
      invariant lines == ["## Coding\n"] + CodingParts(coding, i)
    {
      var item := ChallengeLines(i + 1, coding[i]);
      CodingPartsStep(coding, i, item);
      AppendPart(["## Coding\n"], CodingParts(coding, i), item, CodingParts(coding, i + 1));
      lines := lines + item;
    }
  }

  /** One coding challenge numbered `i`: its prompt, then the blocks of its
      non-empty lists. */
  method ChallengeLines(i: int, c: CodingItem) returns (lines: seq<string>)
    ensures lines == CodingItemLines(i, c)
  {
    lines := ["### " + IntToString(i) + ". " + Str(c.prompt) + "\n"];
    var blocks := Blocks(CodingSections(c));
    lines := lines + blocks;
  }

  /** One more challenge appends its lines. */
  lemma CodingPartsStep(coding: seq<CodingItem>, i: nat, item: seq<string>)
    requires i < |coding| && item == CodingItemLines(i + 1, coding[i])
    ensures CodingParts(coding, i + 1) == CodingParts(coding, i) + item
  {
  }

  /** At least one line per challenge. */
  lemma {:induction false} CodingPartsLength(coding: seq<CodingItem>, k: nat)
    requires k <= |coding|
    ensures |CodingParts(coding, k)| >= k
  {
    if k > 0 {
      CodingPartsLength(coding, k - 1);
    }
  }

  /** No challenges give no part; otherwise the part opens with its
      heading and has at least one line per challenge. */
  lemma CodingShape(coding: seq<CodingItem>)
    ensures CodingLines(coding) == [] <==> coding == []
    ensures coding != [] ==> CodingLines(coding)[0] == "## Coding\n" && |CodingLines(coding)| >= 1 + |coding|
  {
    CodingPartsLength(coding, |coding|);
  }

  /** The heading each known artifact type starts with. */
  function Title(artifactType: string): string {
    if artifactType == "summary" then "# Summary"
    else if artifactType == "takeaways" then "# Key Takeaways"
    else if artifactType == "quiz" then "# Quiz"
    else "# Lab"
  }

  predicate Known(artifactType: string) {
    artifactType == "summary" || artifactType == "takeaways" || artifactType == "quiz" || artifactType == "lab"
  }

  lemma StartsWithTrans(s: string, p: string, q: string)
    requires StartsWith(s, p) && StartsWith(p, q)
    ensures StartsWith(s, q)
  {
    assert s[..|q|] == p[..|p|][..|q|];
  }

  /** `"\n".join(md).strip()`: the text keeps a leading title and has no
      outer whitespace. */
  method Finish(md: seq<string>, ghost title: string) returns (out: string)
    requires md != [] && StartsWith(md[0], title)
    requires title != [] && title[0] == '#' && !IsSpace(title[|title| - 1])
    ensures out == Strip(Join(md, "\n"))
    ensures NoOuterSpace(out) && StartsWith(out, title)
  {
    StartsWithTrans(Join(md, "\n"), md[0], title);
    StripKeepsPrefix(Join(md, "\n"), title);
    out := Strip(Join(md, "\n"));
  }

  /** The lab document before joining. */
  function LabDoc(d: Data): seq<string> {
    ["# Lab\n", "## Objective" + ("\n" + Str(d.objective) + "\n")] + SectionBlocks(LabSections(d))
  }

  /** A lab's blocks: the title, the Objective block, then the non-empty
      sections in order. */
  method LabBlocks(d: Data) returns (md: seq<string>)
    ensures md == LabDoc(d)
    ensures |md| >= 2 && md[0] == "# Lab\n" && md[1] == "## Objective" + ("\n" + Str(d.objective) + "\n")
    ensures |md| == 2 + |Kept(LabSections(d))|
    ensures forall j :: 0 <= j < |md| - 2 ==> md[2 + j] == Block(LabSections(d)[Kept(LabSections(d))[j]])
  {
    var blocks := Blocks(LabSections(d));
    md := ["# Lab\n", "## Objective" + ("\n" + Str(d.objective) + "\n")] + blocks;
  }

  lemma PrefixOfConcat(a: string, b: string)
    ensures StartsWith(a + b, a)
  {
    assert (a + b)[..|a|] == a;
  }

  /** A prefix of the first two blocks joined by a newline survives the
      join and the strip. */
  lemma JoinedPrefix(md: seq<string>, p: string)
    requires |md| >= 2 && StartsWith(md[0] + "\n" + md[1], p)
    requires p != [] && !IsSpace(p[0]) && !IsSpace(p[|p| - 1])
    ensures StartsWith(Strip(Join(md, "\n")), p)
  {
    JoinStartsWithTwo(md, "\n");
    StartsWithTrans(Join(md, "\n"), md[0] + "\n" + md[1], p);
    StripKeepsPrefix(Join(md, "\n"), p);
  }

  /** The lab's opening: its title line, a blank line, the Objective
      heading. */
  lemma LabOpeningText()
    ensures "# Lab\n" + "\n" + "## Objective" == "# Lab\n\n## Objective"
  {
  }

  /** `a + b` followed by `c + rest` starts with `a + b + c`. */
  lemma PrefixOfConcat3(a: string, b: string, c: string, rest: string)
    ensures StartsWith(a + b + (c + rest), a + b + c)
  {
    assert a + b + (c + rest) == a + b + c + rest;
    PrefixOfConcat(a + b + c, rest);
  }

  /** The stripped text of a lab opens with its title and, on the line
      after a blank one, the Objective heading. */
  lemma LabOpening(md: seq<string>, objective: string)
    requires |md| >= 2 && md[0] == "# Lab\n" && md[1] == "## Objective" + ("\n" + objective + "\n")
    ensures StartsWith(Strip(Join(md, "\n")), "# Lab\n\n## Objective")
  {
    PrefixOfConcat3(md[0], "\n", "## Objective", "\n" + objective + "\n");
    LabOpeningText();
    JoinedPrefix(md, "# Lab\n\n## Objective");
  }

  /** The summary branch. */
  method SummaryMarkdown(d: Data) returns (out: string)
    ensures out == Strip(Join(SummaryDoc(d), "\n"))
    ensures NoOuterSpace(out) && StartsWith(out, "# Summary")
  {
    var md := SummaryBlocks(d);
    PrefixOfConcat("# Summary", "\n\n" + Strip(Str(d.overview)) + "\n");
    out := Finish(md, "# Summary");
  }

  /** The takeaways branch: the title, then the non-empty sections. */
  method TakeawaysMarkdown(d: Data) returns (out: string)
    ensures out == Strip(Join(TakeawaysDoc(d), "\n"))
    ensures NoOuterSpace(out) && StartsWith(out, "# Key Takeaways")
  {
    var blocks := Blocks(TakeawaySections(d));
    out := Finish(["# Key Takeaways\n"] + blocks, "# Key Takeaways");
  }

  /** The quiz branch: the title, then the three parts in order. */
  method QuizMarkdown(d: Data) returns (out: string)
    ensures out == Strip(Join(QuizDoc(d), "\n"))
    ensures NoOuterSpace(out) && StartsWith(out, "# Quiz")
  {
    var mc := MultipleChoice(List(d.mcq));
    var sa := ShortAnswers(List(d.shortAnswer));
    var cd := CodingChallenges(List(d.coding));
    out := Finish(["# Quiz\n"] + mc + sa + cd, "# Quiz");
  }

  /** The lab branch. */
  method LabMarkdown(d: Data) returns (out: string)
    ensures out == Strip(Join(LabDoc(d), "\n"))
    ensures NoOuterSpace(out) && StartsWith(out, "# Lab")
    ensures StartsWith(out, "# Lab\n\n## Objective")
  {
    var md := LabBlocks(d);
    LabOpening(md, Str(d.objective));
    out := Finish(md, "# Lab");
  }

  /** `to_markdown(artifact_type, data)`. For the four known types the
      result starts with the type's title and has no outer whitespace, and
      a lab always has its Objective heading right after the title. Any
      other type gets the JSON dump of the data, passed in as `dumped`. */
  method ToMarkdown(artifactType: string, d: Data, dumped: string) returns (out: string)
    ensures Known(artifactType) ==> NoOuterSpace(out) && StartsWith(out, Title(artifactType))
    ensures artifactType == "lab" ==> StartsWith(out, "# Lab\n\n## Objective")
    ensures artifactType == "summary" ==> out == Strip(Join(SummaryDoc(d), "\n"))
    ensures artifactType == "takeaways" ==> out == Strip(Join(TakeawaysDoc(d), "\n"))
    ensures artifactType == "quiz" ==> out == Strip(Join(QuizDoc(d), "\n"))
    ensures artifactType == "lab" ==> out == Strip(Join(LabDoc(d), "\n"))
    ensures !Known(artifactType) ==> out == dumped
  {
    if artifactType == "summary" {
      out := SummaryMarkdown(d);
    } else if artifactType == "takeaways" {
      out := TakeawaysMarkdown(d);
    } else if artifactType == "quiz" {
      out := QuizMarkdown(d);
    } else if artifactType == "lab" {
      out := LabMarkdown(d);
    } else {
      out := dumped;
    }
  }
}
