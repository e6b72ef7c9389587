/**
 * The client's leaderboard browser: the page size from the terminal
 * height, the page numbers shown, the controls offered and the offset
 * that each "n" / "p" / "q" choice leads to.
 */
module Leaderboard {
  import opened Wrappers

  /** Rows reserved for the header, footer and prompt. */
  const ReservedRows: int := 10
  const MinPageSize: int := 5
  const FallbackPageSize: int := 10

  /** The page size: the terminal height less the reserved rows, at least 5; 10 when the size is unknown. */
  function PageSize(terminalHeight: Option<nat>): (size: int)
    ensures size >= MinPageSize
    ensures terminalHeight.None? ==> size == FallbackPageSize
    ensures terminalHeight.Some? && terminalHeight.value >= ReservedRows + MinPageSize ==>
      size == terminalHeight.value - ReservedRows
    ensures terminalHeight.Some? && terminalHeight.value < ReservedRows + MinPageSize ==> size == MinPageSize
  {
    match terminalHeight
    case None => FallbackPageSize
    case Some(h) =>
      var rows := if h >= ReservedRows then h - ReservedRows else 0;
      if rows > MinPageSize then rows else MinPageSize
  }

  /** The one-based page whose first row is `offset`. */
  function CurrentPage(offset: nat, pageSize: int): (page: int)
    requires pageSize > 0
    ensures page >= 1
    ensures (page - 1) * pageSize <= offset < page * pageSize
  {
    offset / pageSize + 1
  }

  /** The number of pages for `total` rows, at least one even when there are none. */
  function TotalPages(total: nat, pageSize: int): (pages: int)
    requires pageSize > 0
    ensures pages >= 1
    ensures total > 0 ==> (pages - 1) * pageSize < total <= pages * pageSize
    ensures total == 0 ==> pages == 1
  {
    var pages := (total + pageSize - 1) / pageSize;
    if pages > 1 then pages else 1
  }

  predicate CanAdvance(offset: int, pageSize: int, total: nat)
  {
    offset + pageSize < total
  }

  predicate CanGoBack(offset: int)
  {
    offset > 0
  }

  /** The next offset after a (trimmed, lower-cased) choice; "q" and anything else keep it. */
  function Step(choice: string, offset: int, pageSize: int, total: nat): (next: int)
    requires pageSize > 0 && offset >= 0
    ensures next >= 0
    ensures choice == "n" && CanAdvance(offset, pageSize, total) ==> next == offset + pageSize
    ensures choice == "p" && CanGoBack(offset) ==> next == if offset >= pageSize then offset - pageSize else 0
    ensures next != offset <==>
      (choice == "n" && CanAdvance(offset, pageSize, total)) || (choice == "p" && CanGoBack(offset))
  {
    if choice == "n" && CanAdvance(offset, pageSize, total) then offset + pageSize
    else if choice == "p" && CanGoBack(offset) then
      var back := offset - pageSize;
      if back > 0 then back else 0
    else offset
  }

  /** The control hints shown under the table. */
  function Controls(offset: int, pageSize: int, total: nat): (controls: seq<string>)
    ensures |controls| >= 1 && controls[|controls| - 1] == "q: quit"
  {
    (if CanGoBack(offset) then ["p: previous"] else [])
    + (if CanAdvance(offset, pageSize, total) then ["n: next"] else [])
    + ["q: quit"]
  }

  /** A control is offered exactly when pressing its key changes the page. */
  lemma ControlsMatchTransitions(offset: int, pageSize: int, total: nat)
    requires pageSize > 0 && offset >= 0
    ensures "p: previous" in Controls(offset, pageSize, total) <==> Step("p", offset, pageSize, total) != offset
    ensures "n: next" in Controls(offset, pageSize, total) <==> Step("n", offset, pageSize, total) != offset
  {
    var c := Controls(offset, pageSize, total);
    if CanGoBack(offset) {
      assert c[0] == "p: previous";
    }
    if CanAdvance(offset, pageSize, total) {
      assert c[|c| - 2] == "n: next";
    }
  }

  /** An offset that is a whole number of pages, as every offset of the browser is. */
  ghost predicate Aligned(offset: int, pageSize: int)
  {
    offset >= 0 && exists q: nat :: offset == q * pageSize
  }

  lemma MulLess(a: int, b: int, p: int)
    requires p > 0 && a * p < b * p
    ensures a < b
  {
  }

  lemma MulStep(q: int, p: int)
    ensures (q + 1) * p == q * p + p
    ensures (q - 1) * p == q * p - p
  {
  }

  /** A positive aligned offset is at least one page in. */
  lemma AlignedPositive(offset: int, pageSize: int) returns (q: nat)
    requires pageSize > 0 && Aligned(offset, pageSize) && offset > 0
    ensures q >= 1 && offset == q * pageSize && offset >= pageSize
  {
    q :| offset == q * pageSize;
    MulLess(0, q, pageSize);
    MulStep(q - 1, pageSize);
  }

  /** Steps keep the offset on a page boundary. */
  lemma StepKeepsAligned(choice: string, offset: int, pageSize: int, total: nat)
    requires pageSize > 0 && Aligned(offset, pageSize)
    ensures Aligned(Step(choice, offset, pageSize, total), pageSize)
  {
    var next := Step(choice, offset, pageSize, total);
    if choice == "n" && CanAdvance(offset, pageSize, total) {
      var q: nat :| offset == q * pageSize;
      MulStep(q, pageSize);
      assert next == (q + 1) * pageSize;
    } else if choice == "p" && CanGoBack(offset) {
      var q := AlignedPositive(offset, pageSize);
      MulStep(q, pageSize);
      var back: nat := q - 1;
      assert next == back * pageSize;
    }
  }

  /** Going forward a page and back again returns to the same page. */
  lemma NextThenPrevious(offset: int, pageSize: int, total: nat)
    requires pageSize > 0 && offset >= 0 && CanAdvance(offset, pageSize, total)
    ensures Step("p", Step("n", offset, pageSize, total), pageSize, total) == offset
  {
  }

  /** Going back a page and forward again returns to the same page. */
  lemma PreviousThenNext(offset: int, pageSize: int, total: nat)
    requires pageSize > 0 && Aligned(offset, pageSize) && 0 < offset < total
    ensures Step("n", Step("p", offset, pageSize, total), pageSize, total) == offset
  {
    var q := AlignedPositive(offset, pageSize);
  }

  /**
   * The offsets of the pages fetched, one per choice read, starting at page
   * one, when the i-th page fetched reports `totals[i]` rows. Browsing ends
   * after "q" or when the choices run out.
   */
  function Requests(pageSize: int, totals: seq<nat>, choices: seq<string>, offset: int): seq<int>
    requires pageSize > 0 && offset >= 0 && |totals| == |choices|
    decreases |choices|
  {
    if |choices| == 0 then []
    else if choices[0] == "q" then [offset]
    else [offset] + Requests(pageSize, totals[1..], choices[1..], Step(choices[0], offset, pageSize, totals[0]))
  }

  /** Every page fetched starts on a page boundary. */
  lemma {:induction false} RequestsAligned(pageSize: int, totals: seq<nat>, choices: seq<string>, offset: int)
    requires pageSize > 0 && Aligned(offset, pageSize) && |totals| == |choices|
    ensures forall k :: 0 <= k < |Requests(pageSize, totals, choices, offset)| ==>
      Aligned(Requests(pageSize, totals, choices, offset)[k], pageSize)
    decreases |choices|
  {
    if |choices| > 0 && choices[0] != "q" {
      var next := Step(choices[0], offset, pageSize, totals[0]);
      StepKeepsAligned(choices[0], offset, pageSize, totals[0]);
      RequestsAligned(pageSize, totals[1..], choices[1..], next);
    }
  }

  /** With the row count fixed, a shown page past the first always has rows. */
  lemma {:induction false} RequestsInRange(pageSize: int, total: nat, choices: seq<string>, offset: int)
    requires pageSize > 0 && offset >= 0 && (offset == 0 || offset < total)
    ensures var totals := seq(|choices|, _ => total);
      forall k :: 0 <= k < |Requests(pageSize, totals, choices, offset)| ==>
        Requests(pageSize, totals, choices, offset)[k] == 0 || Requests(pageSize, totals, choices, offset)[k] < total
    decreases |choices|
  {
    var totals := seq(|choices|, _ => total);
    if |choices| > 0 && choices[0] != "q" {
      var next := Step(choices[0], offset, pageSize, total);
      RequestsInRange(pageSize, total, choices[1..], next);
      assert totals[1..] == seq(|choices[1..]|, _ => total);
    }
  }

  /**
   * The browsing loop: fetch the page at `offset` (here: record the offset
   * asked for), read a choice, and move; "q" leaves.
   */
  method Browse(pageSize: int, totals: seq<nat>, choices: seq<string>) returns (requested: seq<int>)
    requires pageSize > 0 && |totals| == |choices|
    ensures requested == Requests(pageSize, totals, choices, 0)
  {
    var offset := 0;
    var i := 0;
    requested := [];
    while i < |choices|
      invariant 0 <= i <= |choices| && offset >= 0
      invariant requested + Requests(pageSize, totals[i..], choices[i..], offset) == Requests(pageSize, totals, choices, 0)
      decreases |choices| - i
    {
      requested := requested + [offset];
      if choices[i] == "q" {
        assert Requests(pageSize, totals[i..], choices[i..], offset) == [offset];
        return;
      }
      assert totals[i..][1..] == totals[i + 1..] && choices[i..][1..] == choices[i + 1..];
      offset := Step(choices[i], offset, pageSize, totals[i]);
      i := i + 1;
    }
  }

  /** For an offset in range the current page is one of the pages shown. */
  lemma PageShownInRange(offset: nat, pageSize: int, total: nat)
    requires pageSize > 0 && (offset == 0 || offset < total)
    ensures 1 <= CurrentPage(offset, pageSize) <= TotalPages(total, pageSize)
  {
    if offset > 0 {
      var page := CurrentPage(offset, pageSize);
      var pages := TotalPages(total, pageSize);
      MulLess(page - 1, pages, pageSize);
    }
  }
}
