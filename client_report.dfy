/**
 * The client report: the PDF listing of the workspace's clients, drawn page
 * by page as a table under a title and the generation date, with a page
 * counter at the foot of every page. A page is modelled as the list of
 * drawing operations made on it, coordinates in PDF points measured from
 * the bottom-left corner.
 */
module ClientReport {
  import opened Common
  import opened Text
  import opened Store

  // ---------------------------------------------------------------------------
  // Page geometry

  const Margin: real := 50.0
  const PageHeight: real := 841.89
  /** The width of the library's default (A4) page. */
  const PageWidth: real := 595.28
  const PageTop: real := PageHeight - Margin - 50.0
  const PageBottom: real := Margin + 30.0
  const RowHeight: real := 25.0
  const ColWidths: seq<real> := [150.0, 180.0, 100.0, 100.0]
  const FooterY: real := 30.0

  /** How many rows the source reckons fit between the top and the bottom of a page. */
  const RowsPerPage: int := ((PageTop - PageBottom) / RowHeight).Floor

  /** The table's first row starts below the column headings. */
  const FirstRowTop: real := PageTop - RowHeight

  /** The number of rows drawn on every page but the last. */
  const RowsOnFullPage: nat := 25

  datatype Font = Regular | Bold

  /** The two fills: the column-heading band and the band behind every other row. */
  datatype Shade = HeadingShade | StripeShade

  datatype Op =
    | DrawText(text: string, x: real, y: real, font: Font, size: nat)
    | DrawRect(x: real, y: real, width: real, height: real, shade: Shade)
    | DrawLine(x1: real, y1: real, x2: real, y2: real)

  /** `widths.reduce((a, b) => a + b, 0)` over the first `i` widths. */
  function PrefixSum(widths: seq<real>, i: nat): real
    requires i <= |widths|
  {
    if i == 0 then 0.0 else PrefixSum(widths, i - 1) + widths[i - 1]
  }

  /** The width of the table: the sum of its column widths. */
  function TableWidth(): (r: real)
    ensures r == 530.0
    ensures Margin + r <= PageWidth
  {
    assert PrefixSum(ColWidths, 2) == 330.0;
    assert PrefixSum(ColWidths, 3) == 430.0;
    PrefixSum(ColWidths, |ColWidths|)
  }

  /** Rows per page as the source computes it is one more than the rows a page holds. */
  lemma RowsPerPageValue()
    ensures RowsPerPage == 26 && RowsPerPage - 1 == RowsOnFullPage
  {
  }

  // ---------------------------------------------------------------------------
  // Table cells (drawTableHeader and drawTableRow)

  /** The text of each column, each drawn five points inside its column's left edge. */
  function CellOps(texts: seq<string>, y: real, font: Font, size: nat): (r: seq<Op>)
    requires |texts| == |ColWidths|
    ensures |r| == |texts|
  {
    seq(|texts|, i requires 0 <= i < |texts| => DrawText(texts[i], Margin + PrefixSum(ColWidths, i) + 5.0, y, font, size))
  }

  /**
   * The columns sit side by side: each cell starts five points into its
   * column, the next cell starts one column width further right, and every
   * cell starts inside the table.
   */
  lemma CellsSideBySide(texts: seq<string>, y: real, font: Font, size: nat)
    requires |texts| == |ColWidths|
    ensures CellOps(texts, y, font, size)[0].x == Margin + 5.0
    ensures forall i :: 0 < i < |texts| ==>
      CellOps(texts, y, font, size)[i].x == CellOps(texts, y, font, size)[i - 1].x + ColWidths[i - 1]
    ensures forall i :: 0 <= i < |texts| ==>
      Margin < CellOps(texts, y, font, size)[i].x < Margin + TableWidth()
  {
    var ops := CellOps(texts, y, font, size);
    assert PrefixSum(ColWidths, 1) == 150.0;
    assert PrefixSum(ColWidths, 2) == 330.0;
    assert PrefixSum(ColWidths, 3) == 430.0;
    assert ops[0].x == Margin + 5.0;
    assert ops[1].x == Margin + 155.0;
    assert ops[2].x == Margin + 335.0;
    assert ops[3].x == Margin + 435.0;
  }

  /** Draws one line of cells, moving right by each column's width. */
  method DrawCells(texts: seq<string>, y: real, font: Font, size: nat) returns (ops: seq<Op>)
    requires |texts| == |ColWidths|
    ensures ops == CellOps(texts, y, font, size)
  {
    ops := [];
    var x := Margin;
    var i := 0;
    while i < |texts|
      invariant 0 <= i <= |texts|
      invariant x == Margin + PrefixSum(ColWidths, i)
      invariant ops == CellOps(texts, y, font, size)[..i]
    {
      ops := ops + [DrawText(texts[i], x + 5.0, y, font, size)];
      x := x + ColWidths[i];
      i := i + 1;
    }
  }

  const HeadingLabels: seq<string> := ["Nome", "Email", "Telefone", "Data de Cadastro"]

  /** The column headings of a table starting at `y`: a shaded band and the four labels in bold. */
  function TableHeaderOps(y: real): (r: seq<Op>)
    ensures |r| == 5 && r[0] == DrawRect(Margin, y - RowHeight, TableWidth(), RowHeight, HeadingShade)
    ensures r[1..] == CellOps(HeadingLabels, y - 15.0, Bold, 10)
  {
    [DrawRect(Margin, y - RowHeight, TableWidth(), RowHeight, HeadingShade)] + CellOps(HeadingLabels, y - 15.0, Bold, 10)
  }

  /** `drawTableHeader`: draws the headings and hands back the top of the first row. */
  method DrawTableHeader(y: real) returns (ops: seq<Op>, next: real)
    ensures ops == TableHeaderOps(y)
    ensures next == y - RowHeight
  {
    var cells := DrawCells(HeadingLabels, y - 15.0, Bold, 10);
    ops := [DrawRect(Margin, y - RowHeight, TableWidth(), RowHeight, HeadingShade)] + cells;
    next := y - RowHeight;
  }

  /** The four cells of a client's row; missing contact fields read `N/A`. */
  function RowData(client: Client, formatDate: Millis -> string): (r: seq<string>)
    ensures |r| == |ColWidths|
    ensures r[0] == client.name
    ensures r[1] == (if Present(client.email) then client.email.value else "N/A")
    ensures r[2] == (if Present(client.phone) then client.phone.value else "N/A")
    ensures r[3] == formatDate(client.createdAt)
  {
    [client.name, OrElse(client.email, "N/A"), OrElse(client.phone, "N/A"), formatDate(client.createdAt)]
  }

  /** One client's row with its top at `y`: a stripe behind the even rows, then the cells. */
  function RowOps(y: real, client: Client, isEven: bool, formatDate: Millis -> string): (r: seq<Op>)
    ensures |r| == (if isEven then 5 else 4)
    ensures isEven <==> r[0].DrawRect?
    ensures isEven ==> r[0] == DrawRect(Margin, y - RowHeight, TableWidth(), RowHeight, StripeShade)
  {
    (if isEven then [DrawRect(Margin, y - RowHeight, TableWidth(), RowHeight, StripeShade)] else [])
      + CellOps(RowData(client, formatDate), y - 15.0, Regular, 9)
  }

  /** After the stripe, a row holds the client's four cells, ten points above the row's bottom. */
  lemma RowCells(y: real, client: Client, isEven: bool, formatDate: Millis -> string)
    ensures var r := RowOps(y, client, isEven, formatDate);
      r[|r| - |ColWidths|..] == CellOps(RowData(client, formatDate), y - 15.0, Regular, 9)
  {
  }

  /** `drawTableRow`: draws the row and hands back the top of the next one. */
  method DrawTableRow(y: real, client: Client, isEven: bool, formatDate: Millis -> string)
    returns (ops: seq<Op>, next: real)
    ensures ops == RowOps(y, client, isEven, formatDate)
    ensures next == y - RowHeight
  {
    ops := [];
    if isEven {
      ops := ops + [DrawRect(Margin, y - RowHeight, TableWidth(), RowHeight, StripeShade)];
    }
    var cells := DrawCells(RowData(client, formatDate), y - 15.0, Regular, 9);
    ops := ops + cells;
    next := y - RowHeight;
  }

  // ---------------------------------------------------------------------------
  // Page header and footer

  const ReportTitle := "Relatório de Clientes"

  function DateLine(today: string): string {
    "Gerado em: " + today
  }

  /**
   * The page header: the title at the left, the generation date ending 50
   * points before the right edge (`measure` gives a text's width in the
   * regular font at size 10), and a rule under both.
   */
  function HeaderOps(today: string, measure: string -> real): (r: seq<Op>)
    ensures |r| == 3
    ensures r[0] == DrawText(ReportTitle, 50.0, PageHeight - 50.0, Bold, 20)
    ensures r[1].DrawText? && r[1].text == DateLine(today) && r[1].x + measure(DateLine(today)) == PageWidth - 50.0
    ensures r[2] == DrawLine(50.0, PageHeight - 65.0, PageWidth - 50.0, PageHeight - 65.0)
  {
    [DrawText(ReportTitle, 50.0, PageHeight - 50.0, Bold, 20),
     DrawText(DateLine(today), PageWidth - 50.0 - measure(DateLine(today)), PageHeight - 50.0, Regular, 10),
     DrawLine(50.0, PageHeight - 65.0, PageWidth - 50.0, PageHeight - 65.0)]
  }

  function FooterText(pageNumber: nat, totalPages: nat): string {
    "Página " + NatToString(pageNumber) + " de " + NatToString(totalPages)
  }

  /** The page counter, centred at the foot of the page. */
  function FooterOp(pageNumber: nat, totalPages: nat, measure: string -> real): (r: Op)
    ensures r.DrawText? && r.text == FooterText(pageNumber, totalPages) && r.y == FooterY
    ensures r.x + measure(r.text) / 2.0 == PageWidth / 2.0
  {
    var text := FooterText(pageNumber, totalPages);
    DrawText(text, PageWidth / 2.0 - measure(text) / 2.0, FooterY, Regular, 10)
  }

  // ---------------------------------------------------------------------------
  // Pagination

  /** The top of the `j`-th row of a page. */
  function RowTop(j: nat): real {
    FirstRowTop - RowHeight * (j as real)
  }

  /**
   * The loop's page-break test: the row at position `j` of a page fits above
   * the bottom margin exactly when fewer than 25 rows precede it.
   */
  lemma RowFitsIff(j: nat)
    ensures RowTop(j) - RowHeight >= PageBottom <==> j < RowsOnFullPage
  {
  }

  /**
   * The page count the source prints: `Math.ceil(n / (rowsPerPage - 1))`,
   * zero for an empty list; `rowsPerPage - 1` is 25 (`RowsPerPageValue`).
   */
  function TotalPages(n: nat): (r: nat)
    ensures (r - 1) * RowsOnFullPage < n <= r * RowsOnFullPage || (n == 0 && r == 0)
  {
    (n + RowsOnFullPage - 1) / RowsOnFullPage
  }

  /** `TotalPages` is the source's formula, `ceil(n / (rowsPerPage - 1))`, over the computed `rowsPerPage`. */
  lemma TotalPagesIsSourceFormula(n: nat)
    ensures TotalPages(n) == (n + RowsPerPage - 2) / (RowsPerPage - 1)
  {
    RowsPerPageValue();
  }

  /** The number of pages the export draws: one even for an empty list. */
  function PagesDrawn(n: nat): (r: nat)
    ensures r >= 1
  {
    if n == 0 then 1 else (n - 1) / RowsOnFullPage + 1
  }

  /** The page total the footer should print: the number of pages drawn. */
  function FooterTotal(n: nat): (r: nat)
    ensures r == PagesDrawn(n)
  {
    if TotalPages(n) == 0 then 1 else TotalPages(n)
  }

  /** The index of the first row of page `k`. */
  function PageStart(k: nat): nat {
    k * RowsOnFullPage
  }

  /** The index one past the last row of page `k` of a list of `n`. */
  function PageEnd(k: nat, n: nat): nat {
    if PageStart(k) + RowsOnFullPage <= n then PageStart(k) + RowsOnFullPage else n
  }

  /**
   * How a row is drawn from its client, its position in the list and its
   * slot on the page; the pagination below depends on nothing else about it.
   */
  type RowDrawing = (Client, int, nat) -> seq<Op>

  /** The report's rows: at the slot's top, striped on even list positions. */
  function RowDrawer(formatDate: Millis -> string): RowDrawing {
    (c: Client, j: int, slot: nat) => RowOps(RowTop(slot), c, j % 2 == 0, formatDate)
  }

  /** The report's footers: page `p` of `total`. */
  function Footer(total: nat, measure: string -> real): nat -> Op {
    (p: nat) => FooterOp(p, total, measure)
  }

  /** The ops of the rows `start .. hi-1` on a page starting at row `start`. */
  function RowsOps(clients: seq<Client>, start: nat, hi: nat, draw: RowDrawing): seq<Op>
    requires start <= hi <= |clients|
    decreases hi - start
  {
    if hi == start then []
    else RowsOps(clients, start, hi - 1, draw) + draw(clients[hi - 1], hi - 1, hi - 1 - start)
  }

  /** Everything drawn on page `k` (counting from 0) of the report. */
  function PageOps(clients: seq<Client>, k: nat, today: string, measure: string -> real,
                   formatDate: Millis -> string): seq<Op>
    requires k < PagesDrawn(|clients|)
  {
    PageOf(clients, k, PageHead(today, measure), Footer(TotalPages(|clients|), measure), RowDrawer(formatDate))
  }

  /** Page `k` of the report with the intended footers, which count the pages actually drawn. */
  function CorrectedPageOps(clients: seq<Client>, k: nat, today: string, measure: string -> real,
                            formatDate: Millis -> string): seq<Op>
    requires k < PagesDrawn(|clients|)
  {
    PageOf(clients, k, PageHead(today, measure), Footer(FooterTotal(|clients|), measure), RowDrawer(formatDate))
  }

  /** What every page opens with: the report header, then the column headings at the top margin. */
  function PageHead(today: string, measure: string -> real): seq<Op> {
    HeaderOps(today, measure) + TableHeaderOps(PageTop)
  }

  /** Page `k` under the opening `head`: its rows, then its footer. */
  function PageOf(clients: seq<Client>, k: nat, head: seq<Op>, footer: nat -> Op, draw: RowDrawing): seq<Op>
    requires k < PagesDrawn(|clients|)
  {
    PagePrefix(clients, k, PageEnd(k, |clients|), head, draw) + [footer(k + 1)]
  }

  /** Page `k` as drawn up to (not including) row `i`: the opening `head`, then the rows. */
  function PagePrefix(clients: seq<Client>, k: nat, i: nat, head: seq<Op>, draw: RowDrawing): seq<Op>
    requires PageStart(k) <= i <= |clients|
  {
    head + RowsOps(clients, PageStart(k), i, draw)
  }

  /**
   * The pages split the list without gaps or overlaps: every page but the
   * first starts where the previous one ended, each holds between one and
   * 25 rows (the first of an empty list holds none), and the last ends with
   * the last client.
   */
  lemma PagesPartitionRows(n: nat)
    ensures PageStart(0) == 0
    ensures forall k :: 0 < k < PagesDrawn(n) ==> PageStart(k) == PageEnd(k - 1, n)
    ensures forall k :: 0 <= k < PagesDrawn(n) ==>
      PageStart(k) <= PageEnd(k, n) <= PageStart(k) + RowsOnFullPage && (n > 0 ==> PageStart(k) < PageEnd(k, n))
    ensures PageEnd(PagesDrawn(n) - 1, n) == n
  {
    forall k | 0 <= k < PagesDrawn(n)
      ensures PageStart(k) <= PageEnd(k, n) <= PageStart(k) + RowsOnFullPage && (n > 0 ==> PageStart(k) < PageEnd(k, n))
    {
      if n > 0 {
        assert k <= (n - 1) / RowsOnFullPage;
        assert k * RowsOnFullPage <= n - 1;
      }
    }
  }

  /**
   * `GET` of the report: draws the header and the column headings, then one
   * row per client, starting a new page (closing the previous one with its
   * footer) whenever the next row would cross the bottom margin, and closes
   * the last page with its footer. The result is exactly `PagesDrawn` pages,
   * page `k` holding rows `PageStart(k)` up to `PageEnd(k)`. The source lists
   * `getClients()` without a search, that is `ClientActions.GetClients` with
   * no query: the workspace's clients newest first, or none without a
   * workspace. The contract holds for every list.
   */
  method ExportClients(clients: seq<Client>, today: string, measure: string -> real, formatDate: Millis -> string)
    returns (pages: seq<seq<Op>>)
    ensures |pages| == PagesDrawn(|clients|)
    ensures forall k :: 0 <= k < |pages| ==> pages[k] == PageOps(clients, k, today, measure, formatDate)
  {
    var n := |clients|;
    var total := TotalPages(n);
    ghost var head, footer, draw := PageHead(today, measure), Footer(total, measure), RowDrawer(formatDate);
    pages := [];
    var current, y := OpenPage(today, measure);
    var pageNumber := 1;
    var start := 0;
    var i := 0;
    StartsDrawn(clients, head, footer, draw);
    while i < n
      invariant Drawn(clients, head, footer, draw, pages, current, pageNumber, start, i, y)
    {
      pages, current, pageNumber, start, y :=
        DrawNextRow(clients, today, measure, formatDate, total, head, footer, draw, pages, current, pageNumber, start, i, y);
      i := i + 1;
    }
    var last := ClosePage(current, pageNumber, total, measure);
    FinishedReport(clients, today, measure, formatDate, pages, current, pageNumber, start, y);
    pages := pages + [last];
  }

  /** A fresh page: the report header, then the column headings; the first row goes under them. */
  method OpenPage(today: string, measure: string -> real) returns (ops: seq<Op>, y: real)
    ensures ops == PageHead(today, measure) && y == RowTop(0)
  {
    var header;
    header, y := DrawTableHeader(PageTop);
    ops := HeaderOps(today, measure) + header;
  }

  /** Closes a page with its counter: page `pageNumber` of `total`. */
  method ClosePage(current: seq<Op>, pageNumber: nat, total: nat, measure: string -> real) returns (page: seq<Op>)
    ensures page == current + [Footer(total, measure)(pageNumber)]
  {
    page := current + [FooterOp(pageNumber, total, measure)];
  }

  /**
   * One turn of the export loop: when row `i` would cross the bottom margin,
   * closes the page with its footer and opens a new one under a fresh header;
   * then draws the row.
   */
  method DrawNextRow(clients: seq<Client>, today: string, measure: string -> real, formatDate: Millis -> string,
                     total: nat,
                     ghost head: seq<Op>, ghost footer: nat -> Op, ghost draw: RowDrawing,
                     pages: seq<seq<Op>>, current: seq<Op>, pageNumber: int, start: int, i: int, y: real)
    returns (pages': seq<seq<Op>>, current': seq<Op>, pageNumber': int, start': int, y': real)
    requires head == PageHead(today, measure) && footer == Footer(total, measure) && draw == RowDrawer(formatDate)
    requires Drawn(clients, head, footer, draw, pages, current, pageNumber, start, i, y)
    requires i < |clients|
    ensures Drawn(clients, head, footer, draw, pages', current', pageNumber', start', i + 1, y')
  {
    pages', current', pageNumber', start', y' := pages, current, pageNumber, start, y;
    if y - RowHeight < PageBottom {
      ReadyOnNewPage(clients, head, footer, draw, pages, current, pageNumber, start, i, y);
      var last := ClosePage(current, pageNumber, total, measure);
      pages' := pages + [last];
      pageNumber' := pageNumber + 1;
      start' := i;
      current', y' := OpenPage(today, measure);
    } else {
      ReadyOnSamePage(clients, head, footer, draw, pages, current, pageNumber, start, i, y);
    }
    var row, next := DrawTableRow(y', clients[i], i % 2 == 0, formatDate);
    assert row == draw(clients[i], i, i - start');
    RowDrawn(clients, head, footer, draw, pages', current', pageNumber', start', i, y', row);
    current' := current' + row;
    y' := next;
  }

  /** The pages finished so far are the report's first pages. */
  ghost predicate PagesSoFar(pages: seq<seq<Op>>, clients: seq<Client>, head: seq<Op>, footer: nat -> Op,
                             draw: RowDrawing)
  {
    forall k :: 0 <= k < |pages| ==> k < PagesDrawn(|clients|) && pages[k] == PageOf(clients, k, head, footer, draw)
  }

  /**
   * The export before row `i`: page `pageNumber` is open, started at row
   * `start`, holds rows `start .. i-1` under its header, and the next row
   * goes at `y`; the earlier pages are finished.
   */
  ghost predicate Drawn(clients: seq<Client>, head: seq<Op>, footer: nat -> Op, draw: RowDrawing,
                        pages: seq<seq<Op>>, current: seq<Op>, pageNumber: int, start: int, i: int, y: real)
  {
    && pageNumber >= 1 && 0 <= start <= i <= |clients|
    && start == PageStart(pageNumber - 1) && i <= start + RowsOnFullPage
    && ((i == 0 && pageNumber == 1) || start < i)
    && |pages| == pageNumber - 1
    && y == RowTop(i - start)
    && current == PagePrefix(clients, pageNumber - 1, i, head, draw)
    && PagesSoFar(pages, clients, head, footer, draw)
  }

  /** Like `Drawn`, at the moment row `i` is about to be drawn: it fits on the open page. */
  ghost predicate Ready(clients: seq<Client>, head: seq<Op>, footer: nat -> Op, draw: RowDrawing,
                        pages: seq<seq<Op>>, current: seq<Op>, pageNumber: int, start: int, i: int, y: real)
  {
    && pageNumber >= 1 && 0 <= start <= i < |clients|
    && start == PageStart(pageNumber - 1) && i < start + RowsOnFullPage
    && |pages| == pageNumber - 1
    && y == RowTop(i - start)
    && current == PagePrefix(clients, pageNumber - 1, i, head, draw)
    && PagesSoFar(pages, clients, head, footer, draw)
  }

  lemma StartsDrawn(clients: seq<Client>, head: seq<Op>, footer: nat -> Op, draw: RowDrawing)
    ensures Drawn(clients, head, footer, draw, [], head, 1, 0, 0, PageTop - RowHeight)
  {
    assert PagePrefix(clients, 0, 0, head, draw) == head + [];
  }

  /** A row that fits is drawn on the open page. */
  lemma ReadyOnSamePage(clients: seq<Client>, head: seq<Op>, footer: nat -> Op, draw: RowDrawing,
                        pages: seq<seq<Op>>, current: seq<Op>, pageNumber: int, start: int, i: int, y: real)
    requires Drawn(clients, head, footer, draw, pages, current, pageNumber, start, i, y)
    requires i < |clients| && !(y - RowHeight < PageBottom)
    ensures Ready(clients, head, footer, draw, pages, current, pageNumber, start, i, y)
  {
    RowFitsIff(i - start);
  }

  /** A row that would cross the bottom margin closes the page with its footer and opens the next. */
  lemma ReadyOnNewPage(clients: seq<Client>, head: seq<Op>, footer: nat -> Op, draw: RowDrawing,
                       pages: seq<seq<Op>>, current: seq<Op>, pageNumber: int, start: int, i: int, y: real)
    requires Drawn(clients, head, footer, draw, pages, current, pageNumber, start, i, y)
    requires i < |clients| && y - RowHeight < PageBottom
    ensures Ready(clients, head, footer, draw,
                  pages + [current + [footer(pageNumber)]],
                  head, pageNumber + 1, i, i, PageTop - RowHeight)
  {
    RowFitsIff(i - start);
    assert i == start + RowsOnFullPage == PageStart(pageNumber);
    PageClosed(clients, pageNumber - 1, i, head, footer, draw, current);
    PagesSoFarStep(pages, clients, head, footer, draw, current + [footer(pageNumber)]);
    assert PagePrefix(clients, pageNumber, i, head, draw) == head + [];
  }

  /** Appending the next page, drawn in full, keeps the finished pages the report's first pages. */
  lemma PagesSoFarStep(pages: seq<seq<Op>>, clients: seq<Client>, head: seq<Op>, footer: nat -> Op,
                       draw: RowDrawing, last: seq<Op>)
    requires PagesSoFar(pages, clients, head, footer, draw)
    requires |pages| < PagesDrawn(|clients|) && last == PageOf(clients, |pages|, head, footer, draw)
    ensures PagesSoFar(pages + [last], clients, head, footer, draw)
  {
    var all := pages + [last];
    forall k | 0 <= k < |all|
      ensures k < PagesDrawn(|clients|) && all[k] == PageOf(clients, k, head, footer, draw)
    {
      if k < |pages| {
        assert all[k] == pages[k];
      }
    }
  }

  /** Drawing the row moves the open page on by one row. */
  lemma RowDrawn(clients: seq<Client>, head: seq<Op>, footer: nat -> Op, draw: RowDrawing,
                 pages: seq<seq<Op>>, current: seq<Op>, pageNumber: int, start: int, i: int, y: real, row: seq<Op>)
    requires Ready(clients, head, footer, draw, pages, current, pageNumber, start, i, y)
    requires row == draw(clients[i], i, i - start)
    ensures Drawn(clients, head, footer, draw, pages, current + row, pageNumber, start, i + 1, y - RowHeight)
  {
    PagePrefixStep(clients, pageNumber - 1, i, head, draw, current, row);
    assert RowTop(i + 1 - start) == y - RowHeight;
  }

  /** After the last row, closing the open page completes the report. */
  lemma Finished(clients: seq<Client>, head: seq<Op>, footer: nat -> Op, draw: RowDrawing,
                 pages: seq<seq<Op>>, current: seq<Op>, pageNumber: int, start: int, y: real)
    requires Drawn(clients, head, footer, draw, pages, current, pageNumber, start, |clients|, y)
    ensures var all := pages + [current + [footer(pageNumber)]];
      && |all| == PagesDrawn(|clients|)
      && forall k :: 0 <= k < |all| ==> all[k] == PageOf(clients, k, head, footer, draw)
  {
    PageClosed(clients, pageNumber - 1, |clients|, head, footer, draw, current);
  }

  /** The same, stated for the report's own header, footers and rows. */
  lemma FinishedReport(clients: seq<Client>, today: string, measure: string -> real, formatDate: Millis -> string,
                       pages: seq<seq<Op>>, current: seq<Op>, pageNumber: int, start: int, y: real)
    requires Drawn(clients, PageHead(today, measure), Footer(TotalPages(|clients|), measure), RowDrawer(formatDate),
                   pages, current, pageNumber, start, |clients|, y)
    ensures var all := pages + [current + [Footer(TotalPages(|clients|), measure)(pageNumber)]];
      && |all| == PagesDrawn(|clients|)
      && forall k :: 0 <= k < |all| ==> all[k] == PageOps(clients, k, today, measure, formatDate)
  {
    Finished(clients, PageHead(today, measure), Footer(TotalPages(|clients|), measure), RowDrawer(formatDate),
             pages, current, pageNumber, start, y);
  }

  /**
   * When row `i` ends page `k` (it is the page's 25th row, or the list has
   * ended), page `k` is one of the pages drawn, its rows end at `i`, and the
   * ops drawn on it so far, closed by the footer, are the whole page.
   */
  lemma PageClosed(clients: seq<Client>, k: nat, i: nat, head: seq<Op>, footer: nat -> Op,
                   draw: RowDrawing, current: seq<Op>)
    requires PageStart(k) <= i <= |clients| && i <= PageStart(k) + RowsOnFullPage
    requires i == PageStart(k) + RowsOnFullPage || i == |clients|
    requires PageStart(k) < i || (k == 0 && i == 0)
    requires current == PagePrefix(clients, k, i, head, draw)
    ensures k < PagesDrawn(|clients|) && PageEnd(k, |clients|) == i
    ensures k + 1 < PagesDrawn(|clients|) <==> i < |clients|
    ensures current + [footer(k + 1)] == PageOf(clients, k, head, footer, draw)
  {
    var n := |clients|;
    if n > 0 && PageStart(k) < i {
      DivOfRange(k, n - 1);
      if i < n {
        DivOfRange(k + 1, n - 1);
      }
    }
  }

  /** Drawing row `i` on page `k` extends the page by that row's ops. */
  lemma PagePrefixStep(clients: seq<Client>, k: nat, i: nat, head: seq<Op>, draw: RowDrawing,
                       current: seq<Op>, row: seq<Op>)
    requires PageStart(k) <= i < |clients|
    requires current == PagePrefix(clients, k, i, head, draw)
    requires row == draw(clients[i], i, i - PageStart(k))
    ensures current + row == PagePrefix(clients, k, i + 1, head, draw)
  {
    var rows := RowsOps(clients, PageStart(k), i, draw);
    assert RowsOps(clients, PageStart(k), i + 1, draw) == rows + row;
    assert current + row == head + (rows + row);
  }

  /** `m / 25` is `k` exactly when `m` lies in the `k`-th block of 25. */
  lemma DivOfRange(k: nat, m: nat)
    ensures k * RowsOnFullPage <= m < k * RowsOnFullPage + RowsOnFullPage ==> m / RowsOnFullPage == k
    ensures m < k * RowsOnFullPage ==> m / RowsOnFullPage < k
    ensures k * RowsOnFullPage + RowsOnFullPage <= m ==> m / RowsOnFullPage > k
  {
  }

  /** Every page's footer prints the source's total, `ceil(n / 25)`, after the page's own number. */
  lemma ExportFooterAsWritten(clients: seq<Client>, k: nat, today: string, measure: string -> real,
                              formatDate: Millis -> string)
    requires k < PagesDrawn(|clients|)
    ensures
      var ops := PageOps(clients, k, today, measure, formatDate);
      |ops| > 0 && ops[|ops| - 1] == FooterOp(k + 1, TotalPages(|clients|), measure)
  {
  }

  /** With the intended footers, every page counts itself among as many pages as were drawn. */
  lemma FooterCountsPages(clients: seq<Client>, k: nat, today: string, measure: string -> real,
                          formatDate: Millis -> string)
    requires k < PagesDrawn(|clients|)
    ensures
      var ops := CorrectedPageOps(clients, k, today, measure, formatDate);
      |ops| > 0 && ops[|ops| - 1] == FooterOp(k + 1, PagesDrawn(|clients|), measure)
  {
  }

  /** With at least one client, the report as drawn and the intended one are the same, page by page. */
  lemma CorrectedAgreesWhenNonEmpty(clients: seq<Client>, k: nat, today: string, measure: string -> real,
                                    formatDate: Millis -> string)
    requires |clients| >= 1 && k < PagesDrawn(|clients|)
    ensures PageOps(clients, k, today, measure, formatDate) == CorrectedPageOps(clients, k, today, measure, formatDate)
  {
    TotalPagesMatchesWhenNonEmpty(|clients|);
    assert TotalPages(|clients|) == FooterTotal(|clients|);
  }

  /** The source's page total agrees with the pages drawn whenever there is a client. */
  lemma TotalPagesMatchesWhenNonEmpty(n: nat)
    requires n >= 1
    ensures TotalPages(n) == PagesDrawn(n)
  {
    RowsPerPageValue();
  }

  /**
   * With no clients the export still draws one page, but its footer reads
   * "Página 1 de 0"; the intended footer reads "Página 1 de 1".
   */
  lemma TotalPagesOfEmptyList(today: string, measure: string -> real, formatDate: Millis -> string)
    ensures PagesDrawn(0) == 1 && TotalPages(0) == 0
    ensures
      var ops := PageOps([], 0, today, measure, formatDate);
      |ops| > 0 && ops[|ops| - 1].DrawText? && ops[|ops| - 1].text == "Página 1 de 0"
    ensures
      var ops := CorrectedPageOps([], 0, today, measure, formatDate);
      |ops| > 0 && ops[|ops| - 1].DrawText? && ops[|ops| - 1].text == "Página 1 de 1"
  {
    RowsPerPageValue();
    assert NatToString(1) == "1" && NatToString(0) == "0";
    ExportFooterAsWritten([], 0, today, measure, formatDate);
    FooterCountsPages([], 0, today, measure, formatDate);
  }
}
