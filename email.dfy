/**
 * The plain-text body of the notification e-mail (`FITScraper.send_email`).
 * The MIME envelope, the time-stamped subject line and the SMTP delivery
 * are not part of this model.
 */
module Email {

  import opened Wrappers
  import opened Records
  import opened Subsequences

  const Header: string := "New notifications from FIT:\n\n"

  /** `c * n` for a one-character string `c`. */
  function Repeat(c: char, n: nat): (r: string)
    ensures |r| == n && forall i :: 0 <= i < n ==> r[i] == c
  {
    if n == 0 then "" else Repeat(c, n - 1) + [c]
  }

  /** `"-" * 50`. */
  const Rule: string := Repeat('-', 50)

  /** One labelled line, `f"{heading}{value}\n"`. */
  function Line(heading: string, value: string): string {
    heading + value + "\n"
  }

  /** What closes every block: a blank line, the rule and two line breaks. */
  const Separator: string := "\n" + Rule + "\n\n"

  /**
   * The six labelled lines of one record, then the separator: the block
   * opens with the title line, closes with the separator, and is 105
   * characters longer than its six fields together.
   */
  function Block(n: Notification): (r: string)
    ensures Line("Title: ", n.title) <= r
    ensures |r| >= |Separator| && r[|r| - |Separator|..] == Separator
    ensures |r| == 105 + |n.title| + |n.date| + |n.subject| + |n.author| + |n.abstractText| + |n.link|
  {
    Line("Title: ", n.title) + (
    Line("Date: ", n.date) + (
    Line("Subject: ", n.subject) + (
    Line("Author: ", n.author) + (
    Line("Abstract: ", n.abstractText) + (
    Line("Link: ", n.link) +
    Separator)))))
  }

  /**
   * Appending pieces one by one appends their right-nested concatenation.
   * Dafny knows this; the lemma only names the instance a proof needs.
   */
  lemma AppendInTurn(a: string, l1: string, l2: string, l3: string, l4: string, l5: string, l6: string, l7: string)
    ensures a + l1 + l2 + l3 + l4 + l5 + l6 + l7 == a + (l1 + (l2 + (l3 + (l4 + (l5 + (l6 + l7))))))
  {
  }

  /** Appending a record's lines one by one appends its block. */
  lemma AppendBlock(before: string, n: Notification)
    ensures before + Line("Title: ", n.title) + Line("Date: ", n.date) + Line("Subject: ", n.subject)
              + Line("Author: ", n.author) + Line("Abstract: ", n.abstractText) + Line("Link: ", n.link)
              + Separator == before + Block(n)
  {
    AppendInTurn(before, Line("Title: ", n.title), Line("Date: ", n.date), Line("Subject: ", n.subject),
      Line("Author: ", n.author), Line("Abstract: ", n.abstractText), Line("Link: ", n.link), Separator);
  }

  /** The blocks of `ns`, in order. */
  function Blocks(ns: seq<Notification>): string {
    ConcatMap(ns, Block)
  }

  /**
   * The complete body: the header followed by one block per record.  It
   * always opens with the header, is the header alone when there is no
   * record, and otherwise closes with the last record's separator.
   */
  function Body(ns: seq<Notification>): (r: string)
    ensures Header <= r
    ensures ns == [] ==> r == Header
    ensures ns != [] ==> |r| >= |Separator| && r[|r| - |Separator|..] == Separator
  {
    Header + Blocks(ns)
  }

  /**
   * `send_email` up to the hand-over to the mail transport: nothing for an
   * empty list, otherwise the body accumulated line by line.
   */
  method SendEmail(notifications: seq<Notification>) returns (body: Option<string>)
    ensures notifications == [] <==> body.None?
    ensures body.Some? ==> body.value == Body(notifications)
  {
    if notifications == [] {
      return None;
    }
    var text := Header;
    for i := 0 to |notifications|
      invariant text == Header + Blocks(notifications[..i])
    {
      var n := notifications[i];
      ghost var before := text;
      ConcatMapStep(notifications, Block, i);
      text := text + Line("Title: ", n.title);
      text := text + Line("Date: ", n.date);
      text := text + Line("Subject: ", n.subject);
      text := text + Line("Author: ", n.author);
      text := text + Line("Abstract: ", n.abstractText);
      text := text + Line("Link: ", n.link);
      text := text + Separator;
      AppendBlock(before, n);
      ConcatAssociative(Header, Blocks(notifications[..i]), Block(n));
    }
    assert notifications[..|notifications|] == notifications;
    body := Some(text);
  }

  /** The body for more records extends the body for fewer: records are only ever appended. */
  lemma BodyOfAppended(ns: seq<Notification>, more: seq<Notification>)
    ensures Body(ns + more) == Body(ns) + Blocks(more)
  {
    ConcatMapAppend(ns, more, Block);
    ConcatAssociative(Header, Blocks(ns), Blocks(more));
  }

  /**
   * The k-th record's block stands in the body right after the body for
   * the records before it, and the blocks of the later records follow it.
   */
  lemma BlockInBody(ns: seq<Notification>, k: nat)
    requires k < |ns|
    ensures Body(ns) == Body(ns[..k]) + Block(ns[k]) + Blocks(ns[k + 1..])
  {
    assert ns == ns[..k + 1] + ns[k + 1..];
    BodyOfAppended(ns[..k + 1], ns[k + 1..]);
    ConcatMapStep(ns, Block, k);
    ConcatAssociative(Header, Blocks(ns[..k]), Block(ns[k]));
  }

  /** `"\n".join(lines)`. */
  function Join(lines: seq<string>): string
    requires |lines| >= 1
  {
    if |lines| == 1 then lines[0] else lines[0] + "\n" + Join(lines[1..])
  }

  /** Splitting on line breaks, as `str.split("\n")` does; joining the lines back gives `s`. */
  function SplitLines(s: string): (lines: seq<string>)
    ensures |lines| >= 1
    ensures forall j :: 0 <= j < |lines| ==> '\n' !in lines[j]
    ensures Join(lines) == s
  {
    assert "" + s == s;
    SplitFrom(s, "")
  }

  /** Splitting `s` when `current` has already been read into the line under way. */
  function SplitFrom(s: string, current: string): (lines: seq<string>)
    requires '\n' !in current
    ensures |lines| >= 1
    ensures forall j :: 0 <= j < |lines| ==> '\n' !in lines[j]
    ensures Join(lines) == current + s
  {
    if s == [] then
      assert current + s == current;
      [current]
    else if s[0] == '\n' then
      var rest := SplitFrom(s[1..], "");
      assert "" + s[1..] == s[1..];
      assert ([current] + rest)[1..] == rest;
      assert current + "\n" + s[1..] == current + s;
      [current] + rest
    else
      assert current + [s[0]] + s[1..] == current + s;
      SplitFrom(s[1..], current + [s[0]])
  }

  /** A line without a line break, then a line break, splits off as the first line. */
  lemma {:induction false} SplitFromLine(line: string, rest: string, current: string)
    requires '\n' !in line && '\n' !in current
    ensures SplitFrom(line + "\n" + rest, current) == [current + line] + SplitFrom(rest, "")
  {
    if line == [] {
      assert line + "\n" + rest == ['\n'] + rest;
      assert current + line == current;
    } else {
      assert (line + "\n" + rest)[1..] == line[1..] + "\n" + rest;
      assert line[0] in line;
      SplitFromLine(line[1..], rest, current + [line[0]]);
      assert current + [line[0]] + line[1..] == current + line;
    }
  }

  lemma SplitLinesCons(line: string, rest: string)
    requires '\n' !in line
    ensures SplitLines(line + "\n" + rest) == [line] + SplitLines(rest)
  {
    SplitFromLine(line, rest, "");
    assert "" + line == line;
  }

  /** A labelled line splits off as its heading and value. */
  lemma SplitLinesLine(heading: string, value: string, rest: string)
    requires '\n' !in heading && '\n' !in value
    ensures SplitLines(Line(heading, value) + rest) == [heading + value] + SplitLines(rest)
  {
    assert Line(heading, value) + rest == (heading + value) + "\n" + rest;
    SplitLinesCons(heading + value, rest);
  }

  /** The separator reads back as a blank line, the rule and two empty lines. */
  lemma SeparatorLines()
    ensures SplitLines(Separator) == ["", Rule, "", ""]
  {
    assert '\n' !in Rule;
    SplitLinesCons("", "");
    assert "" + "\n" + "" == "\n";
    SplitLinesCons(Rule, "\n");
    SplitLinesCons("", Rule + "\n" + "\n");
    assert Separator == "" + "\n" + (Rule + "\n" + "\n");
  }

  /** The last three labelled lines and the separator, read back. */
  lemma TailLines(n: Notification)
    requires '\n' !in n.author && '\n' !in n.abstractText && '\n' !in n.link
    ensures SplitLines(Line("Author: ", n.author) + (Line("Abstract: ", n.abstractText) + (Line("Link: ", n.link) + Separator)))
            == ["Author: " + n.author, "Abstract: " + n.abstractText, "Link: " + n.link, "", Rule, "", ""]
  {
    var t6 := Line("Link: ", n.link) + Separator;
    var t5 := Line("Abstract: ", n.abstractText) + t6;
    SeparatorLines();
    SplitLinesLine("Link: ", n.link, Separator);
    SplitLinesLine("Abstract: ", n.abstractText, t6);
    SplitLinesLine("Author: ", n.author, t5);
  }

  /**
   * When no field holds a line break, the block reads back as exactly its
   * six labelled lines, a blank line, the rule, and the two empty lines left
   * by the trailing line breaks; so every field can be read back from it.
   */
  lemma BlockLines(n: Notification)
    requires '\n' !in n.title && '\n' !in n.date && '\n' !in n.subject
    requires '\n' !in n.author && '\n' !in n.abstractText && '\n' !in n.link
    ensures SplitLines(Block(n)) == [
      "Title: " + n.title, "Date: " + n.date, "Subject: " + n.subject,
      "Author: " + n.author, "Abstract: " + n.abstractText, "Link: " + n.link,
      "", Rule, "", ""]
  {
    var t4 := Line("Author: ", n.author) + (Line("Abstract: ", n.abstractText) + (Line("Link: ", n.link) + Separator));
    var t3 := Line("Subject: ", n.subject) + t4;
    var t2 := Line("Date: ", n.date) + t3;
    TailLines(n);
    SplitLinesLine("Subject: ", n.subject, t4);
    SplitLinesLine("Date: ", n.date, t3);
    SplitLinesLine("Title: ", n.title, t2);
  }
}
