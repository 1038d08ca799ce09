/** `macqueue/cli.py`, `logs --follow`: paging through a job's log by cursor. */
module LogReader {
  import opened StoreSpec
  import Store

  /** Sequence numbers 0, 1, 2, ... without a gap. */
  ghost predicate Contiguous(rows: LogRows) {
    forall j: nat, k: nat {:trigger j in rows, k in rows} :: k in rows && j < k ==> j in rows
  }

  /** The rows of an earlier log are still there. */
  ghost predicate Extends(earlier: LogRows, later: LogRows) {
    forall k {:trigger k in earlier} {:trigger k in later} :: k in earlier ==> k in later && later[k] == earlier[k]
  }

  /** A row between the cursor and a row of the page is on the page too. */
  lemma RowOnPage(rows: LogRows, after: int, page: seq<LogRow>, i: nat, k: nat) returns (j: nat)
    requires IsPage(rows, after, page) && i < |page| && k in rows && after < k <= page[i].seqno
    ensures j <= i && page[j].seqno == k
  {
    assert exists j :: 0 <= j < |page| && page[j].seqno == k;
    j :| j < |page| && page[j].seqno == k;
    assert j <= i;
  }

  lemma OnlyLast(page: seq<LogRow>, i: nat, j: nat, k: nat)
    requires j <= i < |page| && page[j].seqno == k && (i > 0 ==> page[i - 1].seqno < k)
    requires forall a, b :: 0 <= a < b < |page| ==> page[a].seqno < page[b].seqno
    ensures j == i
  {
  }

  /** `k` is the number that follows the row before, or the cursor. */
  lemma NextOnPage(rows: LogRows, after: int, page: seq<LogRow>, i: nat, k: nat)
    requires IsPage(rows, after, page) && i < |page| && after < k
    requires i > 0 ==> page[i - 1].seqno < k <= page[i - 1].seqno + 1
    requires i == 0 ==> k == after + 1
    requires k <= page[i].seqno ==> k in rows
    ensures page[i].seqno == k
  {
    assert k <= page[i].seqno by { PageAscends(rows, after, page, i); }
    var j := RowOnPage(rows, after, page, i, k);
    OnlyLast(page, i, j, k);
  }

  lemma PageAscends(rows: LogRows, after: int, page: seq<LogRow>, i: nat)
    requires IsPage(rows, after, page) && i < |page|
    ensures after < page[i].seqno && page[i].seqno in rows
    ensures i > 0 ==> page[i - 1].seqno < page[i].seqno
  {
  }

  /** A page of a contiguous log continues exactly where the cursor stands. */
  lemma {:induction false} PageContinues(rows: LogRows, after: int, page: seq<LogRow>, i: nat)
    requires Contiguous(rows) && IsPage(rows, after, page) && after >= -1 && i < |page|
    ensures page[i].seqno == after + 1 + i
    decreases i
  {
    if i > 0 {
      var m := i - 1;
      PageContinues(rows, after, page, m);
    }
    var k := after + 1 + i;
    PageAscends(rows, after, page, i);
    RowsBelow(rows, page[i].seqno, k);
    NextOnPage(rows, after, page, i, k);
  }

  lemma RowsBelow(rows: LogRows, k: nat, j: nat)
    requires Contiguous(rows) && k in rows
    ensures j <= k ==> j in rows
  {
  }

  function Texts(page: seq<LogRow>): (texts: seq<string>)
    ensures |texts| == |page|
  {
    seq(|page|, i requires 0 <= i < |page| => page[i].text)
  }

  /** The cursor is the number of the last chunk printed, and every chunk up to it was printed once, in order. */
  ghost predicate Printed(rows: LogRows, after: int, printed: seq<string>) {
    && |printed| == after + 1
    && (forall i: nat {:trigger printed[i]} :: i < |printed| ==> i in rows && rows[i] == printed[i])
  }

  ghost predicate AtEnd(rows: LogRows, after: int) {
    forall k {:trigger k in rows} :: k in rows ==> k <= after
  }

  lemma StillPrinted(earlier: LogRows, later: LogRows, after: int, printed: seq<string>)
    requires Extends(earlier, later) && Printed(earlier, after, printed)
    ensures Printed(later, after, printed)
  {
    forall i: nat | i < |printed| ensures i in later && later[i] == printed[i] {
      var text := printed[i];
      assert i in earlier;
      assert earlier[i] == text;
    }
  }

  lemma PrintPage(rows: LogRows, after: int, printed: seq<string>, page: seq<LogRow>)
    requires Contiguous(rows) && Printed(rows, after, printed) && IsPage(rows, after, page)
    ensures Printed(rows, after + |page|, printed + Texts(page))
    ensures page != [] ==> page[|page| - 1].seqno == after + |page|
    ensures |page| < PAGE_LIMIT ==> AtEnd(rows, after + |page|)
  {
    forall i: nat | i < |page| ensures page[i].seqno == after + 1 + i {
      PageContinues(rows, after, page, i);
    }
    var all := printed + Texts(page);
    forall i: nat | i < |all| ensures i in rows && rows[i] == all[i] {
      if i >= |printed| {
        assert page[i - |printed|].seqno == i;
      } else {
        assert printed[i] == all[i];
      }
    }
    if |page| < PAGE_LIMIT {
      forall k | k in rows ensures k <= after + |page| {
        if k > after {
          var j :| 0 <= j < |page| && page[j].seqno == k;
        }
      }
    }
  }

  /** Print one page, moving the cursor record by record. */
  method PrintRecords(page: seq<LogRow>, start: seq<string>, cursor: int) returns (printed: seq<string>, after: int)
    ensures printed == start + Texts(page)
    ensures after == if page == [] then cursor else page[|page| - 1].seqno
  {
    printed, after := start, cursor;
    var i := 0;
    while i < |page|
      invariant i <= |page|
      invariant printed == start + Texts(page)[..i]
      invariant after == if i == 0 then cursor else page[i - 1].seqno
    {
      assert Texts(page)[..i + 1] == Texts(page)[..i] + [page[i].text];
      printed := printed + [page[i].text];
      after := page[i].seqno;
      i := i + 1;
    }
    assert Texts(page)[..i] == Texts(page);
  }

  /** One request for a page, and its printing. */
  method ReadPage(rows: LogRows, start: seq<string>, cursor: int) returns (printed: seq<string>, after: int, size: nat)
    requires Contiguous(rows) && Printed(rows, cursor, start)
    ensures Printed(rows, after, printed) && after == cursor + size && size <= 100
    ensures size < 100 ==> AtEnd(rows, after)
  {
    var page := Store.Store.SelectPage(rows, cursor);
    PrintPage(rows, cursor, start, page);
    printed, after := PrintRecords(page, start, cursor);
    size := |page|;
  }

  /**
   The loop of `logs --follow`. `logs[n]` is the job's log when the server answers the request number `n`, and
   `terminal[n]` what the status request after it says. What has been printed is always exactly the first
   `after + 1` chunks; and if the loop ends by itself, they were the whole log when the last page was read. Of a
   job that has ended already it reads a hundred chunks at a time, and stops at the first page that is shorter.
   */
  method Follow(logs: seq<LogRows>, terminal: seq<bool>) returns (printed: seq<string>, after: int, used: nat, ended: bool)
    requires |terminal| == |logs|
    requires forall n :: 0 <= n < |logs| ==> Contiguous(logs[n])
    requires forall n :: 0 < n < |logs| ==> Extends(logs[n - 1], logs[n])
    ensures used <= |logs| && (used < |logs| ==> ended) && (ended ==> used > 0)
    ensures |printed| == after + 1
    ensures used > 0 ==> Printed(logs[used - 1], after, printed)
    ensures ended ==> terminal[used - 1] && AtEnd(logs[used - 1], after)
    ensures (forall n :: 0 <= n < used ==> terminal[n]) ==>
              if ended then 100 * (used - 1) <= |printed| < 100 * used else |printed| == 100 * used
  {
    printed, after, used, ended := [], -1, 0, false;
    while used < |logs|
      invariant used <= |logs| && !ended
      invariant |printed| == after + 1
      invariant used == 0 ==> printed == []
      invariant used > 0 ==> Printed(logs[used - 1], after, printed)
      invariant (forall n :: 0 <= n < used ==> terminal[n]) ==> |printed| == 100 * used
    {
      var rows := logs[used];
      if used > 0 {
        StillPrinted(logs[used - 1], rows, after, printed);
      }
      var size;
      printed, after, size := ReadPage(rows, printed, after);
      used := used + 1;
      if terminal[used - 1] && size < PAGE_LIMIT {
        ended := true;
        return;
      }
    }
  }
}
