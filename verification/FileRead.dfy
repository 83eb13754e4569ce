/** Reading a file page by page (tools/v1/file_tool.py, read). */
module FileRead {
  import opened Common
  import opened Text

  datatype Page = Page(content: string, returned: nat, next: Option<nat>, eof: bool, truncated: bool)

  /** The line that is too long to be returned whole. */
  datatype Error = OutputLimitExceeded(line: nat)

  /** The first line that is not asked for, counted from zero. */
  function RequestedEnd(lines: seq<string>, start: nat, count: Option<nat>): nat
    requires start >= 1
  {
    if count.None? || |lines| < start - 1 + count.value then |lines| else start - 1 + count.value
  }

  /** As many whole lines from i, below end, as fit. */
  function Greedy(lines: seq<string>, i: nat, end: nat, limit: nat): (n: nat)
    requires i <= end <= |lines|
    ensures i + n <= end
    decreases end - i
  {
    if i == end || |lines[i]| > limit then 0 else 1 + Greedy(lines, i + 1, end, limit - |lines[i]|)
  }

  function ReadPage(lines: seq<string>, start: nat, count: Option<nat>, limit: nat): Result<Page, Error>
    requires start >= 1 && (count.Some? ==> count.value >= 1)
  {
    if start > |lines| then Ok(Page("", 0, None, true, false))
    else
      var end := RequestedEnd(lines, start, count);
      var n := Greedy(lines, start - 1, end, limit);
      var stop := start - 1 + n;
      if n == 0 then Err(OutputLimitExceeded(start))
      else if stop < end then Ok(Page(Concat(lines[start - 1..stop]), n, Some(stop + 1), false, true))
      else
        var eof := stop >= |lines|;
        Ok(Page(Concat(lines[start - 1..stop]), n, if eof then None else Some(stop + 1), eof, false))
  }

  // ---- The loop ---------------------------------------------------------------------

  lemma {:induction false} GreedyStep(lines: seq<string>, i: nat, k: nat, end: nat, limit: nat)
    requires i <= k <= end <= |lines|
    requires |Concat(lines[i..k])| <= limit
    ensures Greedy(lines, i, end, limit) == k - i + Greedy(lines, k, end, limit - |Concat(lines[i..k])|)
    decreases k - i
  {
    if i < k {
      assert lines[i..k] == [lines[i]] + lines[i + 1..k];
      GreedyStep(lines, i + 1, k, end, limit - |lines[i]|);
    }
  }

  lemma ConcatSnoc(lines: seq<string>, i: nat, k: nat)
    requires i <= k < |lines|
    ensures Concat(lines[i..k + 1]) == Concat(lines[i..k]) + lines[k]
  {
    assert lines[i..k + 1] == lines[i..k] + [lines[k]];
    ConcatAppend(lines[i..k], [lines[k]]);
    ConcatOne(lines[k]);
  }

  lemma NoLines(lines: seq<string>, i: nat)
    requires i <= |lines|
    ensures Concat(lines[i..i]) == ""
  {
  }

  lemma GreedyStops(lines: seq<string>, i: nat, end: nat, limit: nat)
    requires i <= end <= |lines| && (i == end || |lines[i]| > limit)
    ensures Greedy(lines, i, end, limit) == 0
  {
  }

  method Read(text: string, start: nat, count: Option<nat>, limit: nat) returns (r: Result<Page, Error>)
    requires start >= 1 && (count.Some? ==> count.value >= 1)
    ensures r == ReadPage(LinesKeepEnds(text), start, count, limit)
  {
    hide LinesKeepEnds, Concat, Greedy;
    var lines := LinesKeepEnds(text);
    if start > |lines| { return Ok(Page("", 0, None, true, false)); }
    var first := start - 1;
    var end := if count.None? then |lines| else Min(|lines|, first + count.value);
    var content, k := "", first;
    NoLines(lines, first);
    while k < end
      invariant first <= k <= end
      invariant content == Concat(lines[first..k]) && |content| <= limit
    {
      if |content| + |lines[k]| > limit {
        GreedyStep(lines, first, k, end, limit);
        GreedyStops(lines, k, end, limit - |content|);
        if k == first { return Err(OutputLimitExceeded(start)); }
        return Ok(Page(content, k - first, Some(k + 1), false, true));
      }
      ConcatSnoc(lines, first, k);
      content := content + lines[k];
      k := k + 1;
    }
    GreedyStep(lines, first, end, end, limit);
    GreedyStops(lines, end, end, limit - |content|);
    var eof := k >= |lines|;
    r := Ok(Page(content, k - first, if eof then None else Some(k + 1), eof, false));
  }

  // ---- A page -----------------------------------------------------------------------

  lemma {:induction false} GreedyFits(lines: seq<string>, i: nat, end: nat, limit: nat)
    requires i <= end <= |lines|
    ensures var n := Greedy(lines, i, end, limit);
            && |Concat(lines[i..i + n])| <= limit
            && (i + n < end ==> |Concat(lines[i..i + n + 1])| > limit)
            && (i < end ==> (n == 0 <==> |lines[i]| > limit))
    decreases end - i
  {
    if i < end {
      assert lines[i..i + 1] == [lines[i]];
      hide Concat;
      ConcatOne(lines[i]);
      if |lines[i]| <= limit {
        var m := Greedy(lines, i + 1, end, limit - |lines[i]|);
        GreedyFits(lines, i + 1, end, limit - |lines[i]|);
        assert lines[i..i + 1 + m] == [lines[i]] + lines[i + 1..i + 1 + m];
        ConcatFirst(lines[i], lines[i + 1..i + 1 + m]);
        if i + 1 + m < end {
          assert lines[i..i + 2 + m] == [lines[i]] + lines[i + 1..i + 2 + m];
          ConcatFirst(lines[i], lines[i + 1..i + 2 + m]);
        }
      }
    }
  }

  /**
   A page inside the file is a longest run of whole lines that fits; it fails only when its
   first line does not fit, which it names; its continuation is the line after the last one returned,
   and it is marked as cut short exactly when fewer lines are returned than were asked for and are there.
   */
  lemma PageMeaning(lines: seq<string>, start: nat, count: Option<nat>, limit: nat)
    requires 1 <= start <= |lines| && (count.Some? ==> count.value >= 1)
    ensures var r := ReadPage(lines, start, count, limit);
            && (r.Err? <==> |lines[start - 1]| > limit) && (r.Err? ==> r.error == OutputLimitExceeded(start))
            && (r.Ok? ==>
                  var stop := start - 1 + r.value.returned;
                  && start <= stop <= RequestedEnd(lines, start, count) <= |lines|
                  && r.value.content == Concat(lines[start - 1..stop]) && |r.value.content| <= limit
                  && (stop < RequestedEnd(lines, start, count) ==> |Concat(lines[start - 1..stop + 1])| > limit)
                  && (r.value.eof <==> stop == |lines|)
                  && r.value.next == (if stop == |lines| then None else Some(stop + 1))
                  && (r.value.truncated <==>
                        stop < |lines| && (count.None? || r.value.returned < count.value)))
  {
    GreedyFits(lines, start - 1, RequestedEnd(lines, start, count), limit);
  }

  /** Behind the last line there is an empty page. */
  lemma PastTheEnd(lines: seq<string>, start: nat, count: Option<nat>, limit: nat)
    requires start > |lines| && start >= 1 && (count.Some? ==> count.value >= 1)
    ensures ReadPage(lines, start, count, limit) == Ok(Page("", 0, None, true, false))
  {
  }

  // ---- Following the continuations --------------------------------------------------

  /** A reader that asks for ask(s) lines at line s, with one character limit. */
  function Walk(lines: seq<string>, start: nat, ask: nat -> Option<nat>, limit: nat): Result<seq<Page>, Error>
    requires start >= 1 && forall s :: ask(s).Some? ==> ask(s).value >= 1
    decreases |lines| + 1 - start
  {
    match ReadPage(lines, start, ask(start), limit)
    case Err(e) => Err(e)
    case Ok(page) =>
      if page.next.None? || page.next.value <= start || start > |lines| then Ok([page])
      else match Walk(lines, page.next.value, ask, limit)
        case Err(e) => Err(e)
        case Ok(rest) => Ok([page] + rest)
  }

  function Contents(pages: seq<Page>): seq<string> { seq(|pages|, i requires 0 <= i < |pages| => pages[i].content) }

  lemma {:induction false} FittingLines(lines: seq<string>, i: nat, k: nat, limit: nat)
    requires i <= k <= |lines| && |Concat(lines[i..k])| <= limit
    ensures forall j | i <= j < k :: |lines[j]| <= limit
    decreases k - i
  {
    if i < k {
      assert lines[i..k] == [lines[i]] + lines[i + 1..k];
      FittingLines(lines, i + 1, k, limit);
    }
  }

  /** The walk from a line succeeds exactly when every line from there fits, and then returns them all. */
  lemma {:induction false} WalkExact(lines: seq<string>, start: nat, ask: nat -> Option<nat>, limit: nat)
    requires 1 <= start <= |lines| && forall s :: ask(s).Some? ==> ask(s).value >= 1
    ensures var r := Walk(lines, start, ask, limit);
            && (r.Ok? <==> forall j | start - 1 <= j < |lines| :: |lines[j]| <= limit)
            && (r.Ok? ==>
                  && Concat(Contents(r.value)) == Concat(lines[start - 1..])
                  && |r.value| > 0 && r.value[|r.value| - 1].eof
                  && (forall i | 0 <= i < |r.value| :: |r.value[i].content| <= limit)
                  && (forall i | 0 <= i < |r.value| - 1 :: !r.value[i].eof))
    decreases |lines| - start
  {
    hide ReadPage, RequestedEnd;
    PageMeaning(lines, start, ask(start), limit);
    var r := ReadPage(lines, start, ask(start), limit);
    if r.Ok? {
      var stop := start - 1 + r.value.returned;
      FittingLines(lines, start - 1, stop, limit);
      if stop < |lines| {
        WalkExact(lines, stop + 1, ask, limit);
        var rest := Walk(lines, stop + 1, ask, limit);
        if rest.Ok? {
          assert Contents([r.value] + rest.value) == [r.value.content] + Contents(rest.value);
          assert lines[start - 1..] == lines[start - 1..stop] + lines[stop..];
          ConcatAppend(lines[start - 1..stop], lines[stop..]);
        }
      } else {
        OnePage(r.value);
        assert lines[start - 1..stop] == lines[start - 1..];
      }
    }
  }

  lemma OnePage(page: Page)
    ensures Concat(Contents([page])) == page.content
  {
    assert Contents([page]) == [page.content];
    ConcatOne(page.content);
  }

  /**
   Following next_start_line from line 1, whatever line counts are asked for, succeeds exactly
   when every line of the file fits the limit; the pages then end at end of file, each fits,
   and together they are the text.
   */
  lemma PagedReadingComplete(text: string, ask: nat -> Option<nat>, limit: nat)
    requires forall s :: ask(s).Some? ==> ask(s).value >= 1
    ensures var r := Walk(LinesKeepEnds(text), 1, ask, limit);
            && (r.Ok? <==> forall j | 0 <= j < |LinesKeepEnds(text)| :: |LinesKeepEnds(text)[j]| <= limit)
            && (r.Ok? ==>
                  && Concat(Contents(r.value)) == text
                  && |r.value| > 0 && r.value[|r.value| - 1].eof
                  && (forall i | 0 <= i < |r.value| :: |r.value[i].content| <= limit)
                  && (forall i | 0 <= i < |r.value| - 1 :: !r.value[i].eof))
  {
    var lines := LinesKeepEnds(text);
    KeepEndsLossless(text);
    if lines == [] {
      OnePage(Page("", 0, None, true, false));
    } else {
      WalkExact(lines, 1, ask, limit);
      assert lines[0..] == lines;
    }
  }
}
