/** The layout of the checklist PDF. The document is the log of what is
    written where: each write records its page, its vertical position in
    millimetres and its content. A cursor walks down the page, and a section
    that would start too low moves to a new page at the top margin. How
    many lines the comments wrap to, whether the signature image can be
    placed, and the formatted dates are inputs. */
module Pdf {
  import opened Util
  import opened Types

  const TOP: int := 20

  /** A line of text, a numbered checklist item (`${number}. ${text}`), a
      block of wrapped lines, or an image of the given size. */
  datatype Content =
    | Line(text: string)
    | Item(number: nat, text: string)
    | Lines(text: string, count: nat)
    | Picture(width: int, height: int)

  datatype Write = Write(page: nat, y: int, content: Content)

  /** The current page and position, and everything written so far. */
  datatype Cursor = Cursor(page: nat, y: int, log: seq<Write>)

  /** `w` lies above the position (`page`, `y`): on an earlier page, or
      higher on the same page. */
  predicate Above(w: Write, page: nat, y: int)
  {
    w.page < page || (w.page == page && w.y < y)
  }

  /** Every write lies below everything written before it. */
  predicate Ordered(log: seq<Write>)
  {
    forall i, j | 0 <= i < j < |log| :: Above(log[i], log[j].page, log[j].y)
  }

  /** The contents of a log, in order. */
  function Contents(log: seq<Write>): (cs: seq<Content>)
    ensures |cs| == |log|
    ensures forall k | 0 <= k < |log| :: cs[k] == log[k].content
  {
    seq(|log|, k requires 0 <= k < |log| => log[k].content)
  }

  /** A write is on the page of the write before it, or it is the first
      write of the next page, at the top margin. */
  predicate NewPagesAtTop(log: seq<Write>)
  {
    forall i | 0 < i < |log| :: log[i].page == log[i - 1].page || (log[i].page == log[i - 1].page + 1 && log[i].y == TOP)
  }

  /** The log is ordered, pages start at the top margin, and everything in
      the log lies above the cursor, which is on the last write's page or
      at the top of the next one. */
  predicate Ready(c: Cursor)
  {
    && Ordered(c.log) && NewPagesAtTop(c.log)
    && c.page >= 1 && c.y >= TOP
    && (forall k | 0 <= k < |c.log| :: Above(c.log[k], c.page, c.y))
    && (|c.log| > 0 ==> var last := c.log[|c.log| - 1];
          c.page == last.page || (c.page == last.page + 1 && c.y == TOP))
  }

  /** `pdf.text(...)` (or `addImage`) at the cursor, then `y += dy`. */
  function Put(c: Cursor, content: Content, dy: int): Cursor
  {
    Cursor(c.page, c.y + dy, c.log + [Write(c.page, c.y, content)])
  }

  /** `if (y > limit) { pdf.addPage(); y = 20; }`. */
  function BreakAbove(c: Cursor, limit: int): (r: Cursor)
    requires limit >= TOP
    ensures r.log == c.log && r.y <= limit
    ensures c.y > limit ==> r.page == c.page + 1 && r.y == TOP
    ensures c.y <= limit ==> r == c
  {
    if c.y > limit then Cursor(c.page + 1, TOP, c.log) else c
  }

  /** A write moving the cursor down keeps the cursor ready. */
  lemma PutKeepsReady(c: Cursor, content: Content, dy: int)
    requires Ready(c) && dy > 0
    ensures Ready(Put(c, content, dy))
  {
    var w := Write(c.page, c.y, content);
    OrderedAppend(c.log, w);
    NewPagesAppend(c.log, w);
    var r := Put(c, content, dy);
    assert forall k | 0 <= k < |c.log| :: r.log[k] == c.log[k];
  }

  /** A write below everything in an ordered log keeps it ordered. */
  lemma OrderedAppend(log: seq<Write>, w: Write)
    requires Ordered(log)
    requires forall k | 0 <= k < |log| :: Above(log[k], w.page, w.y)
    ensures Ordered(log + [w])
  {
    var r := log + [w];
    forall i, j | 0 <= i < j < |r| ensures Above(r[i], r[j].page, r[j].y) {
      assert r[i] == log[i];
    }
  }

  /** A write on the last write's page, or at the top of the next one,
      keeps new pages starting at the top margin. */
  lemma NewPagesAppend(log: seq<Write>, w: Write)
    requires NewPagesAtTop(log)
    requires |log| > 0 ==> var last := log[|log| - 1];
      w.page == last.page || (w.page == last.page + 1 && w.y == TOP)
    ensures NewPagesAtTop(log + [w])
  {
    var r := log + [w];
    forall i | 0 < i < |r| ensures r[i].page == r[i - 1].page || (r[i].page == r[i - 1].page + 1 && r[i].y == TOP) {
      if i < |log| {
        assert r[i] == log[i] && r[i - 1] == log[i - 1];
      }
    }
  }

  /** So does a page break. */
  lemma BreakKeepsReady(c: Cursor, limit: int)
    requires Ready(c) && limit >= TOP
    ensures Ready(BreakAbove(c, limit))
  {
  }

  // ---------------------------------------------------------------------------
  // Header

  const TITLE: string := "Employee Onboarding Checklist"

  /** The title, the employee block and the checklist heading; the
      questions start at y = 91 on the first page. */
  function Header(sub: Submission, startDateText: string): (r: Cursor)
    ensures r.page == 1 && r.y == 91 && |r.log| == 7
    ensures Contents(r.log) == [
      Line(TITLE), Line("Employee Information"),
      Line("Name: " + TextOr(sub.employeeName, "")),
      Line("Employee ID: " + TextOr(sub.employeeId, "")),
      Line("Department: " + TextOr(sub.department, "")),
      Line("Start Date: " + startDateText),
      Line("Onboarding Checklist Items")]
    ensures forall k | 0 <= k < 7 :: r.log[k].page == 1
    ensures r.log[0].y == TOP && r.log[6].y == 81
  {
    var c := Cursor(1, TOP, []);
    var c := Put(c, Line(TITLE), 15);
    var c := Put(c, Line("Employee Information"), 10);
    var c := Put(c, Line("Name: " + TextOr(sub.employeeName, "")), 7);
    var c := Put(c, Line("Employee ID: " + TextOr(sub.employeeId, "")), 7);
    var c := Put(c, Line("Department: " + TextOr(sub.department, "")), 7);
    var c := Put(c, Line("Start Date: " + startDateText), 15);
    Put(c, Line("Onboarding Checklist Items"), 10)
  }

  // ---------------------------------------------------------------------------
  // Questions

  /** The wording of question `i`. */
  function QuestionText(i: nat): string
    requires 1 <= i <= 12
  {
    match i
    case 1 => "Employee received Username/Password and successfully logged in to laptop"
    case 2 => "Employee set up Okta Verify or Google Auth"
    case 3 => "Employee connected to and tested the VPN"
    case 4 => "Employee set up email signature in Outlook"
    case 5 => "Employee accessed OneDrive and understood backup folders"
    case 6 => "Employee verified Okta Tiles"
    case 7 => "Employee logged in to Microsoft Teams"
    case 8 => "Employee tested Zoom and Outlook Zoom Plugin"
    case 9 => "Employee signed into Genesys Cloud (app and online)"
    case 10 => "Employee set up Company Portal on phone"
    case 11 => "Employee checked for system updates"
    case 12 => "System properly set up in InTune/Jamf"
  }

  /** The twelve questions, in order. */
  function Questions(): (qs: seq<string>)
    ensures |qs| == 12
    ensures forall k | 1 <= k <= 12 :: qs[k - 1] == QuestionText(k)
  {
    seq(12, k requires 0 <= k < 12 => QuestionText(k + 1))
  }

  const NA: string := "N/A"

  /** What a question's response reads: q6's entries joined by ", " (an
      empty list gives empty text), any other answer as given, and "N/A"
      for a missing or empty answer. */
  function ResponseText(sub: Submission, i: nat): (t: string)
    requires 1 <= i <= 12
    ensures i == 6 && sub.q6.Some? ==> t == Join(sub.q6.value, ", ")
    ensures i == 6 && sub.q6.None? ==> t == NA
    ensures i != 6 ==> t == TextOr(Answer(sub, i), NA)
  {
    if i == 6 then (if sub.q6.Some? then Join(sub.q6.value, ", ") else NA)
    else TextOr(Answer(sub, i), NA)
  }

  /** The response lines of the twelve questions, in order. */
  function Responses(sub: Submission): (rs: seq<string>)
    ensures |rs| == 12
    ensures forall k | 1 <= k <= 12 :: rs[k - 1] == "   Response: " + ResponseText(sub, k)
  {
    seq(12, k requires 0 <= k < 12 => "   Response: " + ResponseText(sub, k + 1))
  }

  /** What questions `i` to 12 write: each question's numbered item followed
      by its response line. */
  function QuestionContents(qs: seq<string>, rs: seq<string>, i: nat): (cs: seq<Content>)
    requires |qs| == |rs| == 12 && 1 <= i <= 13
    ensures |cs| == 2 * (13 - i)
    decreases 13 - i
  {
    if i == 13 then [] else [Item(i, qs[i - 1]), Line(rs[i - 1])] + QuestionContents(qs, rs, i + 1)
  }

  /** Question `j`'s item and response line sit at positions `2(j - i)`
      and `2(j - i) + 1` of what questions `i` to 12 write. */
  lemma {:induction false} QuestionAt(qs: seq<string>, rs: seq<string>, i: nat, j: nat)
    requires |qs| == |rs| == 12 && 1 <= i <= j <= 12
    ensures QuestionContents(qs, rs, i)[2 * (j - i)] == Item(j, qs[j - 1])
    ensures QuestionContents(qs, rs, i)[2 * (j - i) + 1] == Line(rs[j - 1])
    decreases j - i
  {
    if i < j {
      QuestionAt(qs, rs, i + 1, j);
    }
  }

  /** One question: a page break when y > 250, the item, and the response
      line 7 below it. */
  function AskOne(c: Cursor, question: string, response: string, i: nat): (r: Cursor)
    ensures r.log == c.log + [Write(r.page, r.y - 17, Item(i, question)), Write(r.page, r.y - 10, Line(response))]
    ensures r.y - 17 <= 250
    ensures c.y > 250 ==> r.page == c.page + 1 && r.y == TOP + 17
    ensures c.y <= 250 ==> r.page == c.page && r.y == c.y + 17
  {
    var b := BreakAbove(c, 250);
    Put(Put(b, Item(i, question), 7), Line(response), 10)
  }

  /** Questions `i` to 12, appended to the log. */
  function AskFrom(c: Cursor, qs: seq<string>, rs: seq<string>, i: nat): (r: Cursor)
    requires |qs| == |rs| == 12 && 1 <= i <= 13
    ensures |r.log| == |c.log| + 2 * (13 - i)
    ensures r.log[..|c.log|] == c.log
    decreases 13 - i
  {
    if i == 13 then c
    else
      var next := AskOne(c, qs[i - 1], rs[i - 1], i);
      var r := AskFrom(next, qs, rs, i + 1);
      assert r.log[..|c.log|] == c.log by {
        assert r.log[..|next.log|] == next.log;
      }
      r
  }

  /** The questions are written in order, each item followed by its
      response line. */
  lemma {:induction false} AskFromContents(c: Cursor, qs: seq<string>, rs: seq<string>, i: nat)
    requires |qs| == |rs| == 12 && 1 <= i <= 13
    ensures Contents(AskFrom(c, qs, rs, i).log) == Contents(c.log) + QuestionContents(qs, rs, i)
    decreases 13 - i
  {
    if i < 13 {
      var next := AskOne(c, qs[i - 1], rs[i - 1], i);
      AskFromContents(next, qs, rs, i + 1);
      assert Contents(next.log) == Contents(c.log) + [Item(i, qs[i - 1]), Line(rs[i - 1])];
    }
  }

  /** Every question item is written at y ≤ 250. */
  lemma {:induction false} AskFromItemsHigh(c: Cursor, qs: seq<string>, rs: seq<string>, i: nat)
    requires |qs| == |rs| == 12 && 1 <= i <= 13
    ensures var r := AskFrom(c, qs, rs, i);
      forall k | |c.log| <= k < |r.log| && r.log[k].content.Item? :: r.log[k].y <= 250
    decreases 13 - i
  {
    if i < 13 {
      var next := AskOne(c, qs[i - 1], rs[i - 1], i);
      var r := AskFrom(next, qs, rs, i + 1);
      AskFromItemsHigh(next, qs, rs, i + 1);
      forall k | |c.log| <= k < |r.log| && r.log[k].content.Item? ensures r.log[k].y <= 250 {
        if k < |next.log| {
          AskFromKeepsLog(next, qs, rs, i + 1, k);
        }
      }
    }
  }

  /** The questions leave the writes already in the log where they are. */
  lemma AskFromKeepsLog(c: Cursor, qs: seq<string>, rs: seq<string>, i: nat, k: nat)
    requires |qs| == |rs| == 12 && 1 <= i <= 13 && k < |c.log|
    ensures AskFrom(c, qs, rs, i).log[k] == c.log[k]
  {
    var r := AskFrom(c, qs, rs, i);
    assert r.log[..|c.log|][k] == r.log[k];
  }

  /** The questions keep the log ordered and the cursor below it. */
  lemma {:induction false} AskFromReady(c: Cursor, qs: seq<string>, rs: seq<string>, i: nat)
    requires Ready(c) && |qs| == |rs| == 12 && 1 <= i <= 13
    ensures Ready(AskFrom(c, qs, rs, i))
    decreases 13 - i
  {
    if i < 13 {
      var b := BreakAbove(c, 250);
      BreakKeepsReady(c, 250);
      PutKeepsReady(b, Item(i, qs[i - 1]), 7);
      PutKeepsReady(Put(b, Item(i, qs[i - 1]), 7), Line(rs[i - 1]), 10);
      AskFromReady(AskOne(c, qs[i - 1], rs[i - 1], i), qs, rs, i + 1);
    }
  }

  /** After seven header lines, question `j`'s item and response line are
      writes `5 + 2j` and `6 + 2j`. */
  lemma QuestionEntries(c: Cursor, qs: seq<string>, rs: seq<string>, j: nat)
    requires |qs| == |rs| == 12 && 1 <= j <= 12 && |c.log| == 7
    ensures var q := AskFrom(c, qs, rs, 1);
      q.log[5 + 2 * j].content == Item(j, qs[j - 1]) && q.log[6 + 2 * j].content == Line(rs[j - 1])
  {
    AskFromContents(c, qs, rs, 1);
    EntriesAfterHeader(AskFrom(c, qs, rs, 1).log, Contents(c.log), qs, rs, j);
  }

  lemma EntriesAfterHeader(log: seq<Write>, head: seq<Content>, qs: seq<string>, rs: seq<string>, j: nat)
    requires |qs| == |rs| == 12 && 1 <= j <= 12 && |head| == 7
    requires Contents(log) == head + QuestionContents(qs, rs, 1)
    ensures log[5 + 2 * j].content == Item(j, qs[j - 1]) && log[6 + 2 * j].content == Line(rs[j - 1])
  {
    QuestionAt(qs, rs, 1, j);
    var n := 2 * (j - 1);
    var qc := QuestionContents(qs, rs, 1);
    assert Contents(log)[7 + n] == qc[n] && Contents(log)[8 + n] == qc[n + 1];
  }

  /** Where question `j` is written when the questions follow the header:
      questions 1 to 10 fill the first page from y = 91, and 11 and 12 start
      the second page. */
  function SlotPage(j: nat): nat
  {
    if j <= 10 then 1 else 2
  }

  function SlotY(j: nat): int
  {
    if j <= 10 then 91 + 17 * (j - 1) else TOP + 17 * (j - 11)
  }

  /** The cursor just before question `i` when the questions follow the
      header (question 11 is reached at y = 261, below the break line). */
  predicate AtQuestion(c: Cursor, i: nat)
  {
    if i <= 11 then c.page == 1 && c.y == 91 + 17 * (i - 1)
    else c.page == 2 && c.y == TOP + 17 * (i - 12) + 17
  }

  /** Question `i` lands in its slot and leaves the cursor where question
      `i + 1` expects it. */
  lemma AskOneLayout(c: Cursor, question: string, response: string, i: nat)
    requires 1 <= i <= 12 && AtQuestion(c, i)
    ensures var r := AskOne(c, question, response, i);
      && AtQuestion(r, i + 1)
      && r.log[|c.log|].page == SlotPage(i) && r.log[|c.log|].y == SlotY(i)
  {
  }

  /** From where the header leaves the cursor, the questions land in their
      slots and end on the second page at y = 54. Question `j`'s item is
      write `5 + 2j` of the log, after the header's seven lines. */
  lemma {:induction false} AskFromLayout(c: Cursor, qs: seq<string>, rs: seq<string>, i: nat)
    requires |qs| == |rs| == 12 && 1 <= i <= 13 && AtQuestion(c, i) && |c.log| == 5 + 2 * i
    ensures var r := AskFrom(c, qs, rs, i);
      && r.page == 2 && r.y == 54
      && forall j | i <= j <= 12 :: r.log[5 + 2 * j].page == SlotPage(j) && r.log[5 + 2 * j].y == SlotY(j)
    decreases 13 - i
  {
    if i < 13 {
      var next := AskOne(c, qs[i - 1], rs[i - 1], i);
      AskOneLayout(c, qs[i - 1], rs[i - 1], i);
      AskFromLayout(next, qs, rs, i + 1);
      var r := AskFrom(next, qs, rs, i + 1);
      assert r.log[5 + 2 * i] == next.log[5 + 2 * i] by {
        assert r.log[..|next.log|] == next.log;
      }
    }
  }

  // ---------------------------------------------------------------------------
  // Comments and signature

  const COMMENTS_HEADING: string := "Additional Comments"

  /** The comments block, written only for non-empty comments: a page break
      when y > 230, the heading, and the wrapped text. */
  function CommentsBlock(c: Cursor, comments: Field, lineCount: nat): (r: Cursor)
    ensures !Filled(comments) ==> r == c
    ensures Filled(comments) ==>
      && |r.log| == |c.log| + 2 && r.log[..|c.log|] == c.log
      && r.log[|c.log|].content == Line(COMMENTS_HEADING) && r.log[|c.log|].y <= 230
      && r.log[|c.log|] == (if c.y > 230 then Write(c.page + 1, TOP, Line(COMMENTS_HEADING)) else Write(c.page, c.y, Line(COMMENTS_HEADING)))
      && r.log[|c.log| + 1].content == Lines(comments.text, lineCount)
      && r.y == r.log[|c.log|].y + 10 + lineCount * 7 + 10
  {
    if !Filled(comments) then c
    else
      var b := BreakAbove(c, 230);
      Put(Put(b, Line(COMMENTS_HEADING), 10), Lines(comments.text, lineCount), lineCount * 7 + 10)
  }

  const ACKNOWLEDGMENT: string := "Acknowledgment"
  const ACK_TEXT: string := "I acknowledge that I have completed the above checklist items."
  const SIGNATURE_ERROR: string := "Signature: [Error displaying signature]"
  const SIGNATURE_NONE: string := "Signature: [No signature provided]"

  /** The signature image (60 × 30) when there is one and it can be added;
      otherwise one placeholder line. */
  function SignatureMark(c: Cursor, signatureDataUrl: string, imageAdded: bool): (r: Cursor)
    ensures |r.log| == |c.log| + 1 && r.log[..|c.log|] == c.log
    ensures var w := r.log[|c.log|];
      && w.page == c.page && w.y == c.y
      && (signatureDataUrl != "" && imageAdded ==> w.content == Picture(60, 30) && r.y == c.y + 35)
      && (signatureDataUrl != "" && !imageAdded ==> w.content == Line(SIGNATURE_ERROR) && r.y == c.y + 10)
      && (signatureDataUrl == "" ==> w.content == Line(SIGNATURE_NONE) && r.y == c.y + 10)
  {
    if signatureDataUrl != "" then
      if imageAdded then Put(c, Picture(60, 30), 35) else Put(c, Line(SIGNATURE_ERROR), 10)
    else Put(c, Line(SIGNATURE_NONE), 10)
  }

  /** The acknowledgment section: a page break when y > 200, the heading,
      the statement, the signature mark 30 below the heading and the date
      line. */
  function Acknowledgment(c: Cursor, signatureDataUrl: string, imageAdded: bool, signatureDateText: string): (r: seq<Write>)
    ensures |r| == |c.log| + 4 && r[..|c.log|] == c.log
    ensures r[|c.log|].content == Line(ACKNOWLEDGMENT) && r[|c.log|].y <= 200
    ensures r[|c.log|] == if c.y > 200 then Write(c.page + 1, TOP, Line(ACKNOWLEDGMENT)) else Write(c.page, c.y, Line(ACKNOWLEDGMENT))
    ensures r[|c.log| + 1].content == Line(ACK_TEXT)
    ensures r[|c.log| + 1].page == r[|c.log|].page && r[|c.log| + 1].y == r[|c.log|].y + 10
    ensures r[|c.log| + 2].page == r[|c.log|].page && r[|c.log| + 2].y == r[|c.log|].y + 30
    ensures r[|c.log| + 2].y <= 230
    ensures signatureDataUrl != "" && imageAdded ==>
      r[|c.log| + 2].content == Picture(60, 30) && r[|c.log| + 3].y == r[|c.log| + 2].y + 35
    ensures signatureDataUrl != "" && !imageAdded ==>
      r[|c.log| + 2].content == Line(SIGNATURE_ERROR) && r[|c.log| + 3].y == r[|c.log| + 2].y + 10
    ensures signatureDataUrl == "" ==>
      r[|c.log| + 2].content == Line(SIGNATURE_NONE) && r[|c.log| + 3].y == r[|c.log| + 2].y + 10
    ensures r[|c.log| + 3].page == r[|c.log|].page
    ensures r[|c.log| + 3].content == Line("Date: " + signatureDateText)
  {
    var b := BreakAbove(c, 200);
    var a := Put(Put(b, Line(ACKNOWLEDGMENT), 10), Line(ACK_TEXT), 20);
    var s := SignatureMark(a, signatureDataUrl, imageAdded);
    var last := Write(s.page, s.y, Line("Date: " + signatureDateText));
    var r := s.log + [last];
    assert s.log[..|c.log|] == c.log by {
      assert s.log[..|a.log|] == a.log;
    }
    assert r[..|s.log|] == s.log;
    r
  }

  /** The comments block keeps the cursor ready. */
  lemma CommentsKeepReady(c: Cursor, comments: Field, lineCount: nat)
    requires Ready(c)
    ensures Ready(CommentsBlock(c, comments, lineCount))
  {
    if Filled(comments) {
      var b := BreakAbove(c, 230);
      BreakKeepsReady(c, 230);
      PutKeepsReady(b, Line(COMMENTS_HEADING), 10);
      PutKeepsReady(Put(b, Line(COMMENTS_HEADING), 10), Lines(comments.text, lineCount), lineCount * 7 + 10);
    }
  }

  /** The acknowledgment section leaves the log ordered. */
  lemma AcknowledgmentKeepsOrder(c: Cursor, signatureDataUrl: string, imageAdded: bool, signatureDateText: string)
    requires Ready(c)
    ensures Ordered(Acknowledgment(c, signatureDataUrl, imageAdded, signatureDateText))
    ensures NewPagesAtTop(Acknowledgment(c, signatureDataUrl, imageAdded, signatureDateText))
  {
    var b := BreakAbove(c, 200);
    BreakKeepsReady(c, 200);
    PutKeepsReady(b, Line(ACKNOWLEDGMENT), 10);
    var h := Put(b, Line(ACKNOWLEDGMENT), 10);
    PutKeepsReady(h, Line(ACK_TEXT), 20);
    var a := Put(h, Line(ACK_TEXT), 20);
    if signatureDataUrl != "" && imageAdded {
      PutKeepsReady(a, Picture(60, 30), 35);
    } else if signatureDataUrl != "" {
      PutKeepsReady(a, Line(SIGNATURE_ERROR), 10);
    } else {
      PutKeepsReady(a, Line(SIGNATURE_NONE), 10);
    }
    var m := SignatureMark(a, signatureDataUrl, imageAdded);
    PutKeepsReady(m, Line("Date: " + signatureDateText), 1);
  }

  // ---------------------------------------------------------------------------
  // The whole document

  /** What the page needs from outside the layout: the formatted start and
      signature dates, how many lines the comments wrap to, and whether the
      signature image can be placed. */
  datatype Rendering = Rendering(startDateText: string, signatureDateText: string, commentLineCount: nat, imageAdded: bool)

  /** `generateChecklistPDF`: the header, the twelve questions, the comments
      when there are any, and the acknowledgment with the signature. */
  function GenerateChecklistPdf(sub: Submission, signatureDataUrl: string, env: Rendering): (doc: seq<Write>)
    ensures |doc| == if Filled(sub.comments) then 37 else 35
  {
    var q := AskFrom(Header(sub, env.startDateText), Questions(), Responses(sub), 1);
    var m := CommentsBlock(q, sub.comments, env.commentLineCount);
    Acknowledgment(m, signatureDataUrl, env.imageAdded, env.signatureDateText)
  }

  /** The comments and the acknowledgment only append to the log. */
  lemma TailAppends(q: Cursor, comments: Field, lineCount: nat, signatureDataUrl: string, imageAdded: bool, signatureDateText: string)
    ensures Acknowledgment(CommentsBlock(q, comments, lineCount), signatureDataUrl, imageAdded, signatureDateText)[..|q.log|] == q.log
  {
    var m := CommentsBlock(q, comments, lineCount);
    var doc := Acknowledgment(m, signatureDataUrl, imageAdded, signatureDateText);
    assert doc[..|m.log|] == m.log;
    assert m.log[..|q.log|] == q.log;
  }

  /** The first 31 writes are the header and the questions. */
  lemma QuestionsPrefix(sub: Submission, signatureDataUrl: string, env: Rendering)
    ensures GenerateChecklistPdf(sub, signatureDataUrl, env)[..31]
         == AskFrom(Header(sub, env.startDateText), Questions(), Responses(sub), 1).log
  {
    var q := AskFrom(Header(sub, env.startDateText), Questions(), Responses(sub), 1);
    TailAppends(q, sub.comments, env.commentLineCount, signatureDataUrl, env.imageAdded, env.signatureDateText);
  }

  /** The header leaves the cursor ready. */
  lemma HeaderReady(sub: Submission, startDateText: string)
    ensures Ready(Header(sub, startDateText))
  {
    var c := Cursor(1, TOP, []);
    PutKeepsReady(c, Line(TITLE), 15);
    c := Put(c, Line(TITLE), 15);
    PutKeepsReady(c, Line("Employee Information"), 10);
    c := Put(c, Line("Employee Information"), 10);
    PutKeepsReady(c, Line("Name: " + TextOr(sub.employeeName, "")), 7);
    c := Put(c, Line("Name: " + TextOr(sub.employeeName, "")), 7);
    PutKeepsReady(c, Line("Employee ID: " + TextOr(sub.employeeId, "")), 7);
    c := Put(c, Line("Employee ID: " + TextOr(sub.employeeId, "")), 7);
    PutKeepsReady(c, Line("Department: " + TextOr(sub.department, "")), 7);
    c := Put(c, Line("Department: " + TextOr(sub.department, "")), 7);
    PutKeepsReady(c, Line("Start Date: " + startDateText), 15);
    c := Put(c, Line("Start Date: " + startDateText), 15);
    PutKeepsReady(c, Line("Onboarding Checklist Items"), 10);
  }

  /** The header and the questions leave the cursor ready. */
  lemma QuestionsReady(sub: Submission, startDateText: string)
    ensures Ready(AskFrom(Header(sub, startDateText), Questions(), Responses(sub), 1))
  {
    HeaderReady(sub, startDateText);
    AskFromReady(Header(sub, startDateText), Questions(), Responses(sub), 1);
  }

  /** Every write of the document lies below the writes before it: y only
      grows on a page, and each new page starts at y = 20. */
  lemma DocumentOrdered(sub: Submission, signatureDataUrl: string, env: Rendering)
    ensures Ordered(GenerateChecklistPdf(sub, signatureDataUrl, env))
    ensures NewPagesAtTop(GenerateChecklistPdf(sub, signatureDataUrl, env))
  {
    QuestionsReady(sub, env.startDateText);
    var q := AskFrom(Header(sub, env.startDateText), Questions(), Responses(sub), 1);
    CommentsKeepReady(q, sub.comments, env.commentLineCount);
    var m := CommentsBlock(q, sub.comments, env.commentLineCount);
    AcknowledgmentKeepsOrder(m, signatureDataUrl, env.imageAdded, env.signatureDateText);
  }

  /** The twelve questions are written in order 1 to 12, each item directly
      followed by its response line. */
  lemma QuestionsInOrder(sub: Submission, signatureDataUrl: string, env: Rendering, j: nat)
    requires 1 <= j <= 12
    ensures var doc := GenerateChecklistPdf(sub, signatureDataUrl, env);
      && doc[5 + 2 * j].content == Item(j, QuestionText(j))
      && doc[6 + 2 * j].content == Line("   Response: " + ResponseText(sub, j))
  {
    QuestionsPrefix(sub, signatureDataUrl, env);
    QuestionEntries(Header(sub, env.startDateText), Questions(), Responses(sub), j);
  }

  /** Questions 1 to 10 are on the first page and 11 and 12 on the second,
      17 apart. */
  lemma QuestionLayout(sub: Submission, signatureDataUrl: string, env: Rendering, j: nat)
    requires 1 <= j <= 12
    ensures var doc := GenerateChecklistPdf(sub, signatureDataUrl, env);
      doc[5 + 2 * j].page == SlotPage(j) && doc[5 + 2 * j].y == SlotY(j)
  {
    var h := Header(sub, env.startDateText);
    QuestionsPrefix(sub, signatureDataUrl, env);
    AskFromLayout(h, Questions(), Responses(sub), 1);
  }

  /** The questions end high on the second page, so the comments never start
      a page; the acknowledgment moves to a third page exactly when the
      comments wrap to more than 18 lines. */
  lemma SectionsAfterQuestions(sub: Submission, signatureDataUrl: string, env: Rendering)
    ensures var doc := GenerateChecklistPdf(sub, signatureDataUrl, env);
      var ack := doc[|doc| - 4];
      && (Filled(sub.comments) ==> doc[31] == Write(2, 54, Line(COMMENTS_HEADING)))
      && ack.content == Line(ACKNOWLEDGMENT)
      && (!Filled(sub.comments) ==> ack.page == 2 && ack.y == 54)
      && (Filled(sub.comments) && env.commentLineCount <= 18 ==> ack.page == 2 && ack.y == 74 + 7 * env.commentLineCount)
      && (Filled(sub.comments) && env.commentLineCount > 18 ==> ack.page == 3 && ack.y == TOP)
  {
    var h := Header(sub, env.startDateText);
    AskFromLayout(h, Questions(), Responses(sub), 1);
    var q := AskFrom(h, Questions(), Responses(sub), 1);
    TailLayout(q, sub.comments, env.commentLineCount, signatureDataUrl, env.imageAdded, env.signatureDateText);
  }

  /** Where the comments and the acknowledgment land when the questions end
      at y = 54 on page 2. */
  lemma TailLayout(q: Cursor, comments: Field, lineCount: nat, signatureDataUrl: string, imageAdded: bool, signatureDateText: string)
    requires q.page == 2 && q.y == 54 && |q.log| == 31
    ensures var doc := Acknowledgment(CommentsBlock(q, comments, lineCount), signatureDataUrl, imageAdded, signatureDateText);
      var ack := doc[|doc| - 4];
      && (Filled(comments) ==> doc[31] == Write(2, 54, Line(COMMENTS_HEADING)))
      && ack.content == Line(ACKNOWLEDGMENT)
      && (!Filled(comments) ==> ack.page == 2 && ack.y == 54)
      && (Filled(comments) && lineCount <= 18 ==> ack.page == 2 && ack.y == 74 + 7 * lineCount)
      && (Filled(comments) && lineCount > 18 ==> ack.page == 3 && ack.y == TOP)
  {
  }
}
