/**
 * The Markdown shape both reports share: a list of lines that is joined
 * with "\n", optional sections that each open with a level-two heading,
 * bullet lists, and the "Generated" footer.
 */
module Markdown {
  import opened Text

  /** A level-two heading line ("## ..."). */
  predicate IsHeading(line: string) {
    StartsWith(line, "## ")
  }

  /** The texts of the level-two headings among `lines`, in order. */
  function Headings(lines: seq<string>): seq<string> {
    if |lines| == 0 then []
    else
      var line := lines[|lines| - 1];
      Headings(lines[..|lines| - 1]) + (if IsHeading(line) then [line[3..]] else [])
  }

  /** The headings of a document are those of its parts, part after part. */
  lemma {:induction false} HeadingsAppend(a: seq<string>, b: seq<string>)
    ensures Headings(a + b) == Headings(a) + Headings(b)
    decreases |b|
  {
    if |b| == 0 {
      assert a + b == a;
    } else {
      var init := b[..|b| - 1];
      HeadingsAppend(a, init);
      assert (a + b)[..|a + b| - 1] == a + init;
      assert (a + b)[|a + b| - 1] == b[|b| - 1];
    }
  }

  lemma HeadingsOfParts(a: seq<string>, b: seq<string>, c: seq<string>, d: seq<string>, e: seq<string>)
    ensures Headings(a + b + c + d + e) == Headings(a) + Headings(b) + Headings(c) + Headings(d) + Headings(e)
  {
    HeadingsAppend(a + b + c + d, e);
    HeadingsAppend(a + b + c, d);
    HeadingsAppend(a + b, c);
    HeadingsAppend(a, b);
  }

  /** A line that starts as a list item ("- ..."); no such line is a heading. */
  predicate IsItem(line: string) {
    StartsWith(line, "- ")
  }

  lemma ItemOf(a: string, b: string)
    ensures IsItem("- " + a + b)
  {
    assert ("- " + a + b)[..2] == "- ";
  }

  lemma ItemNotHeading(line: string)
    requires IsItem(line)
    ensures !IsHeading(line)
  {
    assert line[0] == '-';
  }

  /** Lines none of which is a heading contribute no heading. */
  lemma {:induction false} NoHeadings(lines: seq<string>)
    requires forall k :: 0 <= k < |lines| ==> !IsHeading(lines[k])
    ensures Headings(lines) == []
    decreases |lines|
  {
    if |lines| > 0 {
      NoHeadings(lines[..|lines| - 1]);
    }
  }

  /** A run of list items contributes no heading. */
  lemma ItemsHaveNoHeadings(items: seq<string>)
    requires forall k :: 0 <= k < |items| ==> IsItem(items[k])
    ensures Headings(items) == []
  {
    forall k | 0 <= k < |items| ensures !IsHeading(items[k]) {
      ItemNotHeading(items[k]);
    }
    NoHeadings(items);
  }

  /** `"- " + item` for each item: the bullet list of `items`, one line each. */
  function Bullets(items: seq<string>): (r: seq<string>)
    ensures |r| == |items|
    ensures forall k :: 0 <= k < |r| ==> r[k] == "- " + items[k]
  {
    if |items| == 0 then [] else Bullets(items[..|items| - 1]) + ["- " + items[|items| - 1]]
  }

  /** One line per element of `xs`, in order. */
  function Rendered<T>(xs: seq<T>, line: T -> string): (r: seq<string>)
    ensures |r| == |xs|
    ensures forall k :: 0 <= k < |r| ==> r[k] == line(xs[k])
  {
    if |xs| == 0 then [] else Rendered(xs[..|xs| - 1], line) + [line(xs[|xs| - 1])]
  }

  lemma RenderedStep<T>(xs: seq<T>, line: T -> string, j: nat)
    requires j < |xs|
    ensures Rendered(xs[..j + 1], line) == Rendered(xs[..j], line) + [line(xs[j])]
  {
    assert xs[..j + 1][..j] == xs[..j];
  }

  /**
   * A section that appears only when it has items: its heading, a blank
   * line, the items and a blank line.
   */
  function Section(heading: string, items: seq<string>): seq<string> {
    if |items| == 0 then [] else ["## " + heading, ""] + items + [""]
  }

  lemma Regroup(a: seq<string>, b: seq<string>, c: seq<string>)
    ensures a + b + c == a + (b + c)
  {
  }

  /** Appending a section's heading, its items and the closing blank line appends the section. */
  lemma SectionBuilt(before: seq<string>, heading: string, items: seq<string>)
    requires |items| > 0
    ensures before + ["## " + heading, ""] + items + [""] == before + Section(heading, items)
  {
  }

  /** A section of list items shows its heading, and no other, exactly when it has items. */
  lemma SectionHeadings(heading: string, items: seq<string>)
    requires forall k :: 0 <= k < |items| ==> IsItem(items[k])
    ensures Headings(Section(heading, items)) == if |items| == 0 then [] else [heading]
  {
    if |items| > 0 {
      var open := ["## " + heading, ""];
      HeadingsAppend(open + items, [""]);
      HeadingsAppend(open, items);
      ItemsHaveNoHeadings(items);
      HeadingsAppend(["## " + heading], [""]);
      assert ["## " + heading] + [""] == open;
      assert ("## " + heading)[3..] == heading;
      assert Headings([""]) == [] by {
        assert !IsHeading("");
      }
    }
  }

  /** The closing rule and the generation stamp (`datetime.now()` as "%Y-%m-%d %H:%M"). */
  function Footer(stamp: string): seq<string> {
    ["---", "*Generated: " + stamp + "*"]
  }

  lemma FooterHasNoHeadings(stamp: string)
    ensures Headings(Footer(stamp)) == []
  {
    HeadingsAppend(["---"], ["*Generated: " + stamp + "*"]);
    assert ["---"] + ["*Generated: " + stamp + "*"] == Footer(stamp);
    assert "---"[1] == '-';
    assert ("*Generated: " + stamp + "*")[0] == '*';
  }
}
