/**
 * The prompt sent to the language model: a fixed template with six `##` section
 * headings, then the article title and the cleaned content.
 */
module Prompt {

  /** The opening instructions, up to the first section heading. */
  const Intro: string :=
    "\nYou are an expert content analyst and summarizer. Your task is to create a comprehensive, structured summary of the following article.\n\n"
    + "**Instructions:**\n"
    + "- Provide an in-depth analysis that captures the essence and key takeaways\n"
    + "- Use clear headings and subheadings to organize information\n"
    + "- Include relevant examples, statistics, or quotes when they add value\n"
    + "- Highlight actionable insights or practical implications\n"
    + "- Maintain objectivity and accuracy\n"
    + "- Format using Markdown for readability (## for sections, ### for subsections, - for lists, **bold** for emphasis)\n\n"
    + "**Structure your summary as follows:**\n\n"

  /** The section headings, in the order the template lists them. */
  const Headings: seq<string> :=
    ["## Overview", "## Key Points", "## Detailed Breakdown",
     "## Examples & Illustrations", "## Takeaways", "## Conclusion"]

  /** What follows each heading, up to the next heading. */
  const Bodies: seq<string> :=
    ["\n[2-3 sentence high-level summary of the main topic and purpose]\n\n",
     "\n- [Main idea 1 with supporting details]\n- [Main idea 2 with supporting details]\n- [Main idea 3 with supporting details]\n[Continue as needed]\n\n",
     "\n[Provide deeper analysis of important sections, including:]\n- Context and background\n- Core arguments or findings\n- Supporting evidence or examples\n- Implications or significance\n\n",
     "\n[Include specific examples, case studies, or data points mentioned in the article]\n\n",
     "\n- [Practical insight 1]\n- [Practical insight 2]\n- [Practical insight 3]\n\n",
     "\n[Final thoughts on the article's significance and relevance]\n\n"]

  const Divider: string := "---\n\n"
  const TitleLabel: string := "**Article Title:** "
  const TitleEnd: string := "\n\n"
  const ContentLabel: string := "**Content:**\n"
  const Closing: string :=
    "\n\n---\n\nBegin your structured summary now. Do not include meta-commentary like \"Here is the summary\" or disclaimers.\n"

  /** The summary prompt's template, piece by piece. */
  const Summary: Template :=
    Template(Intro, Headings, Bodies, Divider, TitleLabel, TitleEnd, ContentLabel, Closing)

  /** A prompt template: an introduction, headed sections, a divider, then the title
      line and the content between their labels, then a closing instruction. */
  datatype Template = Template(
    intro: string, headings: seq<string>, bodies: seq<string>, divider: string,
    titleLabel: string, titleEnd: string, contentLabel: string, closing: string)
  {
    /** Every heading has a body. */
    predicate WellFormed() {
      |headings| == |bodies|
    }

    /** The first `n` sections, each heading followed by its body. */
    function Sections(n: nat): string
      requires WellFormed() && n <= |headings|
    {
      if n == 0 then "" else Sections(n - 1) + headings[n - 1] + bodies[n - 1]
    }

    /** Everything before the title line; it does not depend on the article. */
    function Preamble(): string
      requires WellFormed()
    {
      intro + Sections(|headings|) + divider
    }

    /** The part after the preamble, with the title and the cleaned text filled in. */
    function Tail(title: string, cleanText: string): string {
      titleLabel + title + titleEnd + contentLabel + cleanText + closing
    }

    /** The template with its two placeholders filled in. */
    function Fill(title: string, cleanText: string): (r: string)
      requires WellFormed()
      ensures |r| == |Preamble()| + |titleLabel| + |title| + |titleEnd| + |contentLabel| + |cleanText| + |closing|
    {
      Preamble() + Tail(title, cleanText)
    }

    /** Where the `k`-th heading starts. */
    function HeadingPos(k: nat): nat
      requires WellFormed() && k <= |headings|
    {
      |intro| + |Sections(k)|
    }

    /** Where the title line starts. */
    function TitlePos(): nat
      requires WellFormed()
    {
      |Preamble()|
    }

    /** Where the content label starts, once `title` is filled in. */
    function ContentPos(title: string): nat
      requires WellFormed()
    {
      |Preamble()| + |titleLabel| + |title| + |titleEnd|
    }
  }

  /** The prompt the controller sends for an article. */
  function Build(title: string, cleanText: string): string {
    Summary.Fill(title, cleanText)
  }

  /** `w` occurs in `s` starting at index `i`. */
  predicate OccursAt(s: string, w: string, i: nat) {
    i + |w| <= |s| && s[i..i + |w|] == w
  }

  // ---------------------------------------------------------------------------
  // Lemmas about any template

  /** A string occurs in itself at index 0. */
  lemma Itself(w: string)
    ensures OccursAt(w, w, 0)
  {
    assert w[0..|w|] == w;
  }

  /** An occurrence in `a` is an occurrence in `a + b`. */
  lemma InLeft(a: string, b: string, w: string, i: nat)
    requires OccursAt(a, w, i)
    ensures OccursAt(a + b, w, i)
  {
    assert (a + b)[i..i + |w|] == a[i..i + |w|];
  }

  /** An occurrence in `b` is an occurrence in `a + b`, shifted by `|a|`. */
  lemma InRight(a: string, b: string, w: string, i: nat)
    requires OccursAt(b, w, i)
    ensures OccursAt(a + b, w, |a| + i)
  {
    assert (a + b)[|a| + i..|a| + i + |w|] == b[i..i + |w|];
  }

  /** Regrouping a three-part concatenation. */
  lemma Assoc(a: string, b: string, c: string)
    ensures a + (b + c) == a + b + c
  {
  }

  /** Fewer sections render to a prefix of more sections. */
  lemma {:induction false} SectionsPrefix(t: Template, k: nat, n: nat, w: string, i: nat)
    requires t.WellFormed() && k <= n <= |t.headings|
    requires OccursAt(t.Sections(k), w, i)
    ensures OccursAt(t.Sections(n), w, i)
  {
    if k < n {
      SectionsPrefix(t, k, n - 1, w, i);
      var a := t.Sections(n - 1);
      InLeft(a, t.headings[n - 1], w, i);
      InLeft(a + t.headings[n - 1], t.bodies[n - 1], w, i);
    }
  }

  /** One more section appends its heading and its body. */
  lemma SectionsStep(t: Template, k: nat)
    requires t.WellFormed() && k < |t.headings|
    ensures t.Sections(k + 1) == t.Sections(k) + t.headings[k] + t.bodies[k]
  {
  }
  /** The middle of a three-part concatenation starts right after the first part. */
  lemma Middle(a: string, w: string, c: string)
    ensures OccursAt(a + w + c, w, |a|)
  {
    Itself(w);
    InRight(a, w, w, 0);
    InLeft(a + w, c, w, |a|);
  }
  /** The `k`-th heading occurs in the first `k + 1` sections right after the first `k`. */
  lemma HeadingInSections(t: Template, k: nat)
    requires t.WellFormed() && k < |t.headings|
    ensures OccursAt(t.Sections(k + 1), t.headings[k], |t.Sections(k)|)
  {
    SectionsStep(t, k);
    Middle(t.Sections(k), t.headings[k], t.bodies[k]);
  }
  /** The `k`-th heading occurs where `HeadingPos(k)` says. */
  lemma HeadingAt(t: Template, title: string, cleanText: string, k: nat)
    requires t.WellFormed() && k < |t.headings|
    ensures OccursAt(t.Fill(title, cleanText), t.headings[k], t.HeadingPos(k))
  {
    var r := t.Sections(|t.headings|);
    HeadingInSections(t, k);
    SectionsPrefix(t, k + 1, |t.headings|, t.headings[k], |t.Sections(k)|);
    InRight(t.intro, r, t.headings[k], |t.Sections(k)|);
    InLeft(t.intro + r, t.divider, t.headings[k], |t.intro| + |t.Sections(k)|);
    InLeft(t.Preamble(), t.Tail(title, cleanText), t.headings[k], |t.intro| + |t.Sections(k)|);
  }

  /** The `k`-th heading ends before the next heading (or the end of the sections)
      starts. */
  lemma HeadingEnds(t: Template, k: nat)
    requires t.WellFormed() && k < |t.headings|
    ensures t.HeadingPos(k) + |t.headings[k]| <= t.HeadingPos(k + 1)
  {
    SectionsStep(t, k);
  }

  /** Where the title sits inside the part after the preamble. */
  lemma TailTitle(t: Template, title: string, cleanText: string)
    ensures OccursAt(t.Tail(title, cleanText), t.titleLabel + title, 0)
    ensures OccursAt(t.Tail(title, cleanText), title, |t.titleLabel|)
  {
    var l := t.titleLabel + title;
    var te, cl := t.titleEnd, t.contentLabel;
    var rest := te + cl + cleanText + t.closing;
    Assoc(l, te + cl + cleanText, t.closing);
    Assoc(l, te + cl, cleanText);
    Assoc(l, te, cl);
    Itself(l);
    InLeft(l, rest, l, 0);
    Itself(title);
    InRight(t.titleLabel, title, title, 0);
    InLeft(l, rest, title, |t.titleLabel|);
  }

  /** Where the cleaned text sits inside the part after the preamble. */
  lemma TailContent(t: Template, title: string, cleanText: string)
    ensures OccursAt(t.Tail(title, cleanText), t.contentLabel + cleanText, |t.titleLabel| + |title| + |t.titleEnd|)
    ensures OccursAt(t.Tail(title, cleanText), cleanText, |t.titleLabel| + |title| + |t.titleEnd| + |t.contentLabel|)
  {
    var e := t.titleLabel + title + t.titleEnd;
    var c := t.contentLabel + cleanText;
    Assoc(e, t.contentLabel, cleanText);
    Middle(e, c, t.closing);
    Itself(cleanText);
    InRight(t.contentLabel, cleanText, cleanText, 0);
    InRight(e, c, cleanText, |t.contentLabel|);
    InLeft(e + c, t.closing, cleanText, |e| + |t.contentLabel|);
  }

  /** The title line occurs right after the preamble, and the title itself right
      after its label. */
  lemma FillTitle(t: Template, title: string, cleanText: string)
    requires t.WellFormed()
    ensures OccursAt(t.Fill(title, cleanText), t.titleLabel + title, t.TitlePos())
    ensures OccursAt(t.Fill(title, cleanText), title, t.TitlePos() + |t.titleLabel|)
  {
    var pre := t.Preamble();
    var x := t.Tail(title, cleanText);
    TailTitle(t, title, cleanText);
    InRight(pre, x, t.titleLabel + title, 0);
    InRight(pre, x, title, |t.titleLabel|);
  }

  /** The content label occurs after the title line, and the cleaned text right after
      that label. */
  lemma FillContent(t: Template, title: string, cleanText: string)
    requires t.WellFormed()
    ensures t.TitlePos() + |t.titleLabel + title| <= t.ContentPos(title)
    ensures OccursAt(t.Fill(title, cleanText), t.contentLabel + cleanText, t.ContentPos(title))
    ensures OccursAt(t.Fill(title, cleanText), cleanText, t.ContentPos(title) + |t.contentLabel|)
  {
    var pre := t.Preamble();
    var x := t.Tail(title, cleanText);
    TailContent(t, title, cleanText);
    InRight(pre, x, t.contentLabel + cleanText, |t.titleLabel| + |title| + |t.titleEnd|);
    InRight(pre, x, cleanText, |t.titleLabel| + |title| + |t.titleEnd| + |t.contentLabel|);
  }

  // ---------------------------------------------------------------------------
  // Lemmas about the summary prompt

  /** The six headings appear in the prompt in the template's order, each ending
      before the next begins. */
  lemma HeadingsInOrder(title: string, cleanText: string)
    ensures forall k :: 0 <= k < |Summary.headings| ==>
      OccursAt(Build(title, cleanText), Summary.headings[k], Summary.HeadingPos(k))
    ensures forall k :: 0 <= k < |Summary.headings| ==>
      Summary.HeadingPos(k) + |Summary.headings[k]| <= Summary.HeadingPos(k + 1)
  {
    forall k | 0 <= k < |Summary.headings|
      ensures OccursAt(Build(title, cleanText), Summary.headings[k], Summary.HeadingPos(k))
      ensures Summary.HeadingPos(k) + |Summary.headings[k]| <= Summary.HeadingPos(k + 1)
    {
      HeadingAt(Summary, title, cleanText, k);
      HeadingEnds(Summary, k);
    }
  }

  /** The sections end before the title line starts. */
  lemma HeadingsBeforeTitle()
    ensures Summary.HeadingPos(|Summary.headings|) < Summary.TitlePos()
  {
  }

  /** After the headings comes the title label `**Article Title:** ` followed by the
      title. */
  lemma TitleInPrompt(title: string, cleanText: string)
    ensures OccursAt(Build(title, cleanText), TitleLabel + title, Summary.TitlePos())
    ensures OccursAt(Build(title, cleanText), title, Summary.TitlePos() + |TitleLabel|)
  {
    FillTitle(Summary, title, cleanText);
  }

  /** After the title line comes the content label `**Content:**` followed by the
      cleaned text. */
  lemma ContentInPrompt(title: string, cleanText: string)
    ensures Summary.TitlePos() + |TitleLabel + title| <= Summary.ContentPos(title)
    ensures OccursAt(Build(title, cleanText), ContentLabel + cleanText, Summary.ContentPos(title))
    ensures OccursAt(Build(title, cleanText), cleanText, Summary.ContentPos(title) + |ContentLabel|)
  {
    FillContent(Summary, title, cleanText);
  }
}
