/**
 The page loop of extract_pdf_text in companion/pdf_extract.py: what of a document
 fits into its page and character budgets.  pypdf is a page that decodes to a
 text or does not.
 */
module PdfExtract {
  import opened Outcomes
  import opened PyText
  import opened Canonical
  import opened CanonicalParse
  import opened PdfText

  datatype Page = Undecodable | Decoded(text: Text)

  datatype Document = Unreadable | Encrypted | Readable(pages: seq<Page>)

  datatype Status = Parsed | Empty

  datatype Extraction = Extraction(
    status: Status, text: Text, pageCount: nat, pagesExtracted: nat, pagesSkipped: nat,
    truncated: bool, reason: Option<string>)

  /** The normalized text of one page and its number, counted from 1. */
  datatype Body = Body(number: nat, text: Text)

  /** The pages that decode to some text. */
  function Bodies(pages: seq<Page>): (bs: seq<Body>)
    ensures |bs| <= |pages|
  {
    if pages == [] then []
    else
      var (front, page) := (pages[..|pages| - 1], pages[|pages| - 1]);
      if page.Decoded? && Normalize(page.text) != [] then Bodies(front) + [Body(|pages|, Normalize(page.text))]
        else Bodies(front)
  }

  function Undecodables(pages: seq<Page>): nat {
    if pages == [] then 0
    else Undecodables(pages[..|pages| - 1]) + (if pages[|pages| - 1].Undecodable? then 1 else 0)
  }

  function Title(number: nat): Text {
    A("## Page ") + Digits(number)
  }

  function Section(b: Body): Text {
    Title(b.number) + [LF, LF] + b.text
  }

  function Sections(bs: seq<Body>): (ss: seq<Text>)
    ensures |ss| == |bs|
  {
    if bs == [] then [] else Sections(bs[..|bs| - 1]) + [Section(bs[|bs| - 1])]
  }

  /** "\n\n".join. */
  function JoinSections(ss: seq<Text>): Text {
    if ss == [] then []
    else if |ss| == 1 then ss[0]
    else JoinSections(ss[..|ss| - 1]) + [LF, LF] + ss[|ss| - 1]
  }

  predicate IsBody(pages: seq<Page>, b: Body) {
    1 <= b.number <= |pages| && pages[b.number - 1].Decoded? && b.text == Normalize(pages[b.number - 1].text)
      && b.text != []
  }

  ghost predicate InPageOrder(bs: seq<Body>) {
    forall i, j :: 0 <= i < j < |bs| ==> bs[i].number < bs[j].number
  }

  /** The bodies are exactly the decodable, not empty pages, in page order. */
  lemma {:induction false} BodiesExact(pages: seq<Page>)
    ensures InPageOrder(Bodies(pages))
    ensures forall b :: b in Bodies(pages) <==> IsBody(pages, b)
  {
    hide Normalize;
    if pages != [] {
      var (front, page) := (pages[..|pages| - 1], pages[|pages| - 1]);
      BodiesExact(front);
      forall b ensures b in Bodies(pages) <==> IsBody(pages, b) {
        assert b in Bodies(front) <==> IsBody(front, b);
        assert IsBody(front, b) <==> IsBody(pages, b) && b.number < |pages|;
      }
      forall i | 0 <= i < |Bodies(front)| ensures Bodies(front)[i].number < |pages| {
        assert Bodies(front)[i] in Bodies(front);
        assert IsBody(front, Bodies(front)[i]);
      }
    }
  }

  /** The first k bodies, and possibly a shortened next one that still holds text. */
  ghost predicate WholeExcerpt(bs: seq<Body>, k: nat, text: Text) {
    k <= |bs| && text == JoinSections(Sections(bs[..k]))
  }

  ghost predicate CutExcerpt(bs: seq<Body>, k: nat, m: nat, text: Text) {
    && k < |bs| && 0 < m < |bs[k].text|
    && text == JoinSections(Sections(bs[..k]) + [Section(Body(bs[k].number, bs[k].text[..m]))])
  }

  /** Nothing was left out for which there was room. */
  ghost predicate Full(bs: seq<Body>, k: nat, budget: nat) {
    k < |bs| ==> |JoinSections(Sections(bs[..k + 1]))| > budget
  }

  ghost predicate EndsCut(bs: seq<Body>, k: nat, text: Text) {
    exists m: nat :: CutExcerpt(bs, k, m, text)
  }

  ghost predicate Excerpt(bs: seq<Body>, budget: nat, count: nat, text: Text) {
    || (WholeExcerpt(bs, count, text) && Full(bs, count, budget))
    || (count > 0 && Full(bs, count - 1, budget) && EndsCut(bs, count - 1, text))
  }

  function AtLeastOne(n: int): nat { if n < 1 then 1 else n }

  function Considered(pages: seq<Page>, maxPages: int): seq<Page> {
    if |pages| <= AtLeastOne(maxPages) then pages else pages[..AtLeastOne(maxPages)]
  }

  lemma TitleIsOneLine(number: nat)
    ensures LF !in Title(number)
  {
    DigitsAreDigits(number);
    assert forall i :: 0 <= i < |Title(number)| ==> Title(number)[i] != LF;
  }

  /** A fragment with a newline and no whitespace at its end holds body text. */
  lemma FragmentHoldsBody(b: Body, limit: nat)
    requires limit < |Section(b)| && LF in StripRight(Section(b)[..limit])
    ensures var m := |StripRight(Section(b)[..limit])| - |Title(b.number)| - 2;
      0 < m < |b.text| && StripRight(Section(b)[..limit]) == Section(Body(b.number, b.text[..m]))
  {
    hide Title, Digits;
    var (title, section) := (Title(b.number), Section(b));
    var fragment := StripRight(section[..limit]);
    StripRightCuts(section[..limit]);
    TitleIsOneLine(b.number);
    assert fragment == section[..|fragment|];
    assert forall i :: 0 <= i < |fragment| && i < |title| ==> fragment[i] == title[i];
    assert |fragment| > |title|;
    assert fragment[|fragment| - 1] == section[|fragment| - 1];
    assert section[|title|] == LF && section[|title| + 1] == LF;
    var m := |fragment| - |title| - 2;
    assert section == title + [LF, LF] + b.text;
    assert section[..|fragment|] == title + [LF, LF] + b.text[..m];
  }

  lemma {:induction false} SectionsAdd(bs: seq<Body>, b: Body)
    ensures Sections(bs + [b]) == Sections(bs) + [Section(b)]
  {
    assert (bs + [b])[..|bs|] == bs;
  }

  lemma {:induction false} JoinAdds(ss: seq<Text>, s: Text)
    ensures JoinSections(ss + [s]) == if ss == [] then s else JoinSections(ss) + [LF, LF] + s
  {
    assert (ss + [s])[..|ss|] == ss;
  }

  lemma {:induction false} BodiesOfMore(pages: seq<Page>, n: nat)
    requires n <= |pages|
    ensures |Bodies(pages[..n])| <= |Bodies(pages)| && Bodies(pages)[..|Bodies(pages[..n])|] == Bodies(pages[..n])
    decreases |pages| - n
  {
    hide Normalize;
    if n < |pages| {
      BodiesOfMore(pages, n + 1);
      assert pages[..n + 1][..n] == pages[..n];
    } else {
      assert pages[..n] == pages;
    }
  }

  lemma PageAdds(pages: seq<Page>, i: nat)
    requires i < |pages|
    ensures var (now, next, page) := (Bodies(pages[..i]), Bodies(pages[..i + 1]), pages[i]);
      next == if page.Decoded? && Normalize(page.text) != [] then now + [Body(i + 1, Normalize(page.text))] else now
    ensures Undecodables(pages[..i + 1]) == Undecodables(pages[..i]) + (if pages[i].Undecodable? then 1 else 0)
  {
    hide Normalize;
    assert pages[..i + 1][..i] == pages[..i];
  }

  /** A prefix of the pages gives a prefix of the bodies. */
  lemma {:induction false} PrefixBodies(pages: seq<Page>, i: nat, k: nat)
    requires i <= |pages| && k <= |Bodies(pages[..i])|
    ensures |Bodies(pages[..i])| <= |Bodies(pages)| && Bodies(pages)[..k] == Bodies(pages[..i])[..k]
  {
    BodiesOfMore(pages, i);
    assert Bodies(pages)[..k] == Bodies(pages)[..|Bodies(pages[..i])|][..k];
  }

  /** The loop stops at page i + 1, whose body is the next one after the sections. */
  lemma StoppedAt(pages: seq<Page>, i: nat, budget: nat, sections: seq<Text>)
    requires i < |pages| && pages[i].Decoded? && Normalize(pages[i].text) != []
    requires sections == Sections(Bodies(pages[..i]))
    requires |JoinSections(sections + [Section(Body(i + 1, Normalize(pages[i].text)))])| > budget
    ensures var (bs, k) := (Bodies(pages), |sections|);
      k < |bs| && bs[k] == Body(i + 1, Normalize(pages[i].text)) && Sections(bs[..k]) == sections && Full(bs, k, budget)
  {
    hide Normalize, Section, Bodies;
    var b := Body(i + 1, Normalize(pages[i].text));
    var (bs, k) := (Bodies(pages), |sections|);
    PageAdds(pages, i);
    PrefixBodies(pages, i, k);
    PrefixBodies(pages, i + 1, k + 1);
    SectionsAdd(Bodies(pages[..i]), b);
    assert Bodies(pages[..i])[..k] == Bodies(pages[..i]);
    assert Bodies(pages[..i + 1])[..k + 1] == Bodies(pages[..i + 1]);
    assert bs[k] == bs[..k + 1][k];
  }

  lemma {:induction false} StoppedWhole(bs: seq<Body>, budget: nat, sections: seq<Text>)
    requires |sections| < |bs| && Sections(bs[..|sections|]) == sections && Full(bs, |sections|, budget)
    ensures Excerpt(bs, budget, |sections|, JoinSections(sections))
  {
  }

  lemma {:induction false} StoppedCut(bs: seq<Body>, budget: nat, sections: seq<Text>, m: nat)
    requires |sections| < |bs| && Sections(bs[..|sections|]) == sections && Full(bs, |sections|, budget)
    requires 0 < m < |bs[|sections|].text|
    ensures var b := bs[|sections|];
            Excerpt(bs, budget, |sections| + 1, JoinSections(sections + [Section(Body(b.number, b.text[..m]))]))
  {
    hide Section, JoinSections, Sections, Full;
    var b := bs[|sections|];
    assert CutExcerpt(bs, |sections|, m, JoinSections(sections + [Section(Body(b.number, b.text[..m]))]));
  }

  lemma {:induction false} FinishedWhole(pages: seq<Page>, budget: nat, sections: seq<Text>)
    requires sections == Sections(Bodies(pages))
    ensures Excerpt(Bodies(pages), budget, |sections|, JoinSections(sections))
  {
    hide Bodies, Section;
    assert Bodies(pages)[..|sections|] == Bodies(pages);
  }

  lemma {:induction false} NotEmptyJoin(ss: seq<Text>)
    requires forall s :: s in ss ==> s != []
    ensures JoinSections(ss) == [] <==> ss == []
  {
    if ss != [] { assert ss[|ss| - 1] in ss; }
  }

  lemma SectionNotEmpty(b: Body)
    ensures Section(b) != []
  {
  }

  /** The loop over the considered pages. */
  method ExtractSections(considered: seq<Page>, budget: nat)
    returns (sections: seq<Text>, skipped: nat, beyondChars: bool)
    ensures |JoinSections(sections)| <= budget && (JoinSections(sections) == [] <==> sections == [])
    ensures Excerpt(Bodies(considered), budget, |sections|, JoinSections(sections))
    ensures |sections| + skipped <= |considered|
    ensures !beyondChars ==> sections == Sections(Bodies(considered)) && skipped == Undecodables(considered)
    ensures beyondChars <==> |JoinSections(Sections(Bodies(considered)))| > budget
  {
    hide Normalize, Section, Bodies, Undecodables, Excerpt, Sections, JoinSections, Full, StripRight, Title;
    sections, skipped, beyondChars := [], 0, false;
    var used := 0;
    Nothing(considered);
    for i := 0 to |considered|
      invariant !beyondChars && sections == Sections(Bodies(considered[..i]))
      invariant used == |JoinSections(sections)| <= budget && forall s :: s in sections ==> s != []
      invariant |sections| + skipped <= i && skipped == Undecodables(considered[..i])
    {
      PageAdds(considered, i);
      var page := considered[i];
      if page.Undecodable? {
        skipped := skipped + 1;
        continue;
      }
      var body := Normalize(page.text);
      if body == [] { continue; }
      var b := Body(i + 1, body);
      var section := Section(b);
      SectionsAdd(Bodies(considered[..i]), b);
      SectionNotEmpty(b);
      JoinAdds(sections, section);
      NotEmptyJoin(sections);
      var separator := if sections != [] then 2 else 0;
      var remaining := budget - used - separator;
      if remaining <= 0 {
        StoppedAt(considered, i, budget, sections);
        StoppedWhole(Bodies(considered), budget, sections);
        FullTooLong(Bodies(considered), |sections|, budget);
        return sections, skipped, true;
      }
      if |section| > remaining {
        var fragment := StripRight(section[..remaining]);
        StoppedAt(considered, i, budget, sections);
        FullTooLong(Bodies(considered), |sections|, budget);
        if LF !in fragment {
          StoppedWhole(Bodies(considered), budget, sections);
          return sections, skipped, true;
        }
        FragmentHoldsBody(b, remaining);
        StoppedCut(Bodies(considered), budget, sections, |fragment| - |Title(i + 1)| - 2);
        JoinAdds(sections, fragment);
        sections := sections + [fragment];
        NotEmptyJoin(sections);
        return sections, skipped, true;
      }
      used := used + separator + |section|;
      sections := sections + [section];
    }
    assert considered[..|considered|] == considered;
    FinishedWhole(considered, budget, sections);
    NotEmptyJoin(sections);
  }

  /** What does not fit already makes the whole too long. */
  lemma {:induction false} FullTooLong(bs: seq<Body>, k: nat, budget: nat)
    requires k < |bs| && Full(bs, k, budget)
    ensures |JoinSections(Sections(bs))| > budget
    decreases |bs| - k
  {
    hide Section;
    if k + 1 == |bs| {
      assert bs[..k + 1] == bs;
    } else {
      assert bs[..k + 2] == bs[..k + 1] + [bs[k + 1]];
      SectionsAdd(bs[..k + 1], bs[k + 1]);
      JoinAdds(Sections(bs[..k + 1]), Section(bs[k + 1]));
      hide Sections, JoinSections;
      assert |Sections(bs[..k + 1])| == k + 1;
      FullTooLong(bs, k + 1, budget);
    }
  }

  /** How the sections read: a heading with the page's number, a blank line, the text,
      and a blank line before the next. */
  lemma {:induction false} SectionsRead(bs: seq<Body>, b: Body)
    ensures JoinSections(Sections([])) == []
    ensures JoinSections(Sections(bs + [b])) ==
      (if bs == [] then [] else JoinSections(Sections(bs)) + [0x0A, 0x0A])
      + A("## Page ") + Serialize(Int(b.number)) + [0x0A, 0x0A] + b.text
  {
    assert Sections([]) == [] && JoinSections([]) == [];
    SectionsAdd(bs, b);
    JoinAdds(Sections(bs), Section(b));
    NumberText(b.number);
    hide Sections, JoinSections, Digits, A;
    var front := if bs == [] then [] else JoinSections(Sections(bs)) + [LF, LF];
    assert front + (A("## Page ") + Digits(b.number) + [LF, LF] + b.text)
      == front + A("## Page ") + Digits(b.number) + [LF, LF] + b.text;
  }

  lemma {:induction false} NumberText(n: nat)
    ensures Serialize(Int(n)) == Digits(n)
  {
  }

  lemma Nothing(pages: seq<Page>)
    ensures Sections(Bodies(pages[..0])) == [] && JoinSections([]) == [] && Undecodables(pages[..0]) == 0
  {
  }

  method ExtractPages(pages: seq<Page>, maxPages: int, maxChars: int) returns (r: Extraction)
    ensures |r.text| <= AtLeastOne(maxChars) && r.pageCount == |pages|
    ensures |r.text| <= (if maxChars < 1 then 1 else maxChars)
    ensures |pages| > (if maxPages < 1 then 1 else maxPages) ==> r.truncated
    ensures |pages| <= 1 || |pages| <= maxPages ==> Considered(pages, maxPages) == pages
    ensures Excerpt(Bodies(Considered(pages, maxPages)), AtLeastOne(maxChars), r.pagesExtracted, r.text)
    ensures r.pagesExtracted + r.pagesSkipped <= |Considered(pages, maxPages)|
    ensures r.truncated <==>
      |pages| > AtLeastOne(maxPages)
      || |JoinSections(Sections(Bodies(Considered(pages, maxPages))))| > AtLeastOne(maxChars)
    ensures !r.truncated ==> |pages| <= AtLeastOne(maxPages) && r.pagesSkipped == Undecodables(pages)
    ensures !r.truncated ==> r.text == JoinSections(Sections(Bodies(pages)))
    ensures r.status.Parsed? <==> r.text != []
    ensures r.reason == if r.text == [] then Some("no_extractable_text") else None
  {
    hide Bodies, Undecodables, Excerpt, Sections, JoinSections, Full;
    var considered := Considered(pages, maxPages);
    var sections, skipped, beyondChars := ExtractSections(considered, AtLeastOne(maxChars));
    var truncated := |pages| > |considered| || beyondChars;
    var text := JoinSections(sections);
    if text == [] {
      return Extraction(Empty, [], |pages|, 0, skipped, truncated, Some("no_extractable_text"));
    }
    return Extraction(Status.Parsed, text, |pages|, |sections|, skipped, truncated, None);
  }

  /** extract_pdf_text. */
  method ExtractPdfText(document: Document, maxPages: int, maxChars: int) returns (r: Extraction)
    ensures document.Unreadable? ==> r == Extraction(Empty, [], 0, 0, 0, false, Some("unreadable_document"))
    ensures document.Encrypted? ==> r == Extraction(Empty, [], 0, 0, 0, false, Some("encrypted"))
    ensures |r.text| <= AtLeastOne(maxChars)
    ensures document.Readable? && !r.truncated ==> r.text == JoinSections(Sections(Bodies(document.pages)))
    ensures document.Readable? ==> r.reason == if r.text == [] then Some("no_extractable_text") else None
    ensures r.text == [] <==> r.reason.Some?
  {
    match document
    case Unreadable => r := Extraction(Empty, [], 0, 0, 0, false, Some("unreadable_document"));
    case Encrypted => r := Extraction(Empty, [], 0, 0, 0, false, Some("encrypted"));
    case Readable(pages) => r := ExtractPages(pages, maxPages, maxChars);
  }
}
