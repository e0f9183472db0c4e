/** The quote document's vertical layout, its urgency coefficient label and its
    file name (`generatePDF`).

    Only the cursor arithmetic is modelled: the cursor `y` (millimetres from the
    top of an A4 page) advances as lines are drawn, and before each major section
    `checkPageBreak` starts a new page when the section's requested height would
    cross the bottom margin. The drawing calls themselves are not modelled; the
    number of lines the PDF library wraps the timeline note into is an input. */
module PdfExport {
  import opened Wrappers
  import opened Text
  import opened QuoteData
  import opened Pricing

  const PageHeight: int := 297
  const MarginTop: int := 30
  const MarginBottom: int := 25
  const ContentHeight: int := PageHeight - MarginTop - MarginBottom

  /** The lowest `y` a section may reach: the top of the footer band (272). */
  const PageLimit: int := ContentHeight + MarginTop

  /** Where the cursor starts on a page opened by a page break (40). */
  const NewPageY: int := MarginTop + 10

  /** Where the cursor starts on the first page (45). */
  const FirstPageY: int := MarginTop + 15

  datatype Cursor = Cursor(y: int, page: nat)

  const Start: Cursor := Cursor(FirstPageY, 1)

  /** `checkPageBreak(y, need)`: a new page begins exactly when `y + need` would
      pass the page limit, and the cursor then restarts at 40. Afterwards the section fits below the cursor unless it
      is taller than a whole page's room. */
  function CheckPageBreak(c: Cursor, need: nat): (r: Cursor)
    ensures r.page == c.page || r.page == c.page + 1
    ensures r.page == c.page + 1 <==> c.y + need > PageLimit
    ensures r.page == c.page ==> r.y == c.y
    ensures r.page == c.page + 1 ==> r.y == NewPageY
    ensures r.y + need <= PageLimit || need > PageLimit - NewPageY
  {
    if c.y + need > PageLimit then Cursor(NewPageY, c.page + 1) else c
  }

  /** One step of the layout: draw something `mm` high, or check that `need` mm
      are left before a section. */
  datatype LayoutOp = Advance(mm: nat) | Reserve(need: nat)

  function Exec(c: Cursor, op: LayoutOp): (r: Cursor)
    ensures c.page <= r.page <= c.page + (if op.Reserve? then 1 else 0)
  {
    match op
    case Advance(mm) => c.(y := c.y + mm)
    case Reserve(need) => CheckPageBreak(c, need)
  }

  /** The cursor after a list of layout steps. */
  function Layout(c: Cursor, ops: seq<LayoutOp>): Cursor
    decreases |ops|
  {
    if ops == [] then c else Layout(Exec(c, ops[0]), ops[1..])
  }

  /** How many page-break checks a list of steps makes. */
  function Reserves(ops: seq<LayoutOp>): nat {
    if ops == [] then 0 else (if ops[0].Reserve? then 1 else 0) + Reserves(ops[1..])
  }

  /** Laying out a list in two parts is laying out the first, then the second. */
  lemma {:induction false} LayoutAppend(c: Cursor, a: seq<LayoutOp>, b: seq<LayoutOp>)
    ensures Layout(c, a + b) == Layout(Layout(c, a), b)
    decreases |a|
  {
    if a == [] {
      assert a + b == b;
    } else {
      LayoutAppend(Exec(c, a[0]), a[1..], b);
      assert (a + b)[1..] == a[1..] + b;
    }
  }

  /** The page counter never decreases, and grows by at most one per check. */
  lemma {:induction false} LayoutPageBounds(c: Cursor, ops: seq<LayoutOp>)
    ensures c.page <= Layout(c, ops).page <= c.page + Reserves(ops)
    decreases |ops|
  {
    if ops != [] {
      LayoutPageBounds(Exec(c, ops[0]), ops[1..]);
    }
  }

  /** The cursor never climbs above the top of a page's content area. */
  lemma {:induction false} LayoutStaysBelowHeader(c: Cursor, ops: seq<LayoutOp>)
    requires c.y >= NewPageY
    ensures Layout(c, ops).y >= NewPageY
    decreases |ops|
  {
    if ops != [] {
      LayoutStaysBelowHeader(Exec(c, ops[0]), ops[1..]);
    }
  }

  /** `n` lines, each `mm` high. */
  function Lines(n: nat, mm: nat): (ops: seq<LayoutOp>)
    ensures |ops| == n
    ensures forall i :: 0 <= i < |ops| ==> ops[i] == Advance(mm)
  {
    if n == 0 then [] else [Advance(mm)] + Lines(n - 1, mm)
  }

  /** The number of ids in the list the catalog knows (the ones drawn as lines). */
  function KnownFeatureCount(ids: seq<string>): (n: nat)
    ensures n <= |ids|
    ensures |ids| == 1 ==> n == (if IsFeatureId(ids[0]) then 1 else 0)
  {
    if ids == [] then 0
    else (if FindFeature(ids[0]).Some? then 1 else 0) + KnownFeatureCount(ids[1..])
  }

  /** When every id is a catalog id, every id is drawn. */
  lemma {:induction false} KnownFeatureCountAll(ids: seq<string>)
    requires forall k :: 0 <= k < |ids| ==> IsFeatureId(ids[k])
    ensures KnownFeatureCount(ids) == |ids|
  {
    if ids != [] {
      assert FindFeature(ids[0]).Some?;
      KnownFeatureCountAll(ids[1..]);
    }
  }

  /** The count adds up over a concatenation: each id is counted on its own. */
  lemma {:induction false} KnownFeatureCountAppend(a: seq<string>, b: seq<string>)
    ensures KnownFeatureCount(a + b) == KnownFeatureCount(a) + KnownFeatureCount(b)
    decreases |a|
  {
    if a == [] {
      assert a + b == b;
    } else {
      assert (a + b)[0] == a[0] && (a + b)[1..] == a[1..] + b;
      KnownFeatureCountAppend(a[1..], b);
    }
  }

  lemma {:induction false} ReservesAppend(a: seq<LayoutOp>, b: seq<LayoutOp>)
    ensures Reserves(a + b) == Reserves(a) + Reserves(b)
  {
    if a == [] {
      assert a + b == b;
    } else {
      ReservesAppend(a[1..], b);
      assert (a + b)[1..] == a[1..] + b;
    }
  }

  /** A list with at most one page-break check makes at most one. */
  lemma {:induction false} AtMostOneReserve(ops: seq<LayoutOp>)
    requires forall i, j :: 0 <= i < j < |ops| ==> !(ops[i].Reserve? && ops[j].Reserve?)
    ensures Reserves(ops) <= 1
  {
    if ops != [] {
      if ops[0].Reserve? {
        NoReserve(ops[1..]);
      } else {
        AtMostOneReserve(ops[1..]);
      }
    }
  }

  lemma {:induction false} NoReserve(ops: seq<LayoutOp>)
    requires forall i :: 0 <= i < |ops| ==> ops[i].Advance?
    ensures Reserves(ops) == 0
  {
    if ops != [] {
      NoReserve(ops[1..]);
    }
  }

  /** Client block: name, optional company, email. */
  function ClientSection(f: FormData): seq<LayoutOp> {
    [Advance(10), Advance(6)] + (if f.contact.company != "" then [Advance(6)] else []) + [Advance(15)]
  }

  /** Project block: title, then name, description and base price when the type is known. */
  function ProjectSection(f: FormData): seq<LayoutOp> {
    [Reserve(50), Advance(10)]
    + (if FindProject(f.projectType).Some? then [Advance(6), Advance(6), Advance(10)] else [])
  }

  /** Feature block, present when the list is not empty: the check counts every
      id, but only catalog ids are drawn. */
  function FeaturesSection(f: FormData): seq<LayoutOp> {
    FeatureBlock(|f.features|, KnownFeatureCount(f.features))
  }

  /** The feature block for `listed` ids of which `drawn` are in the catalog. */
  function FeatureBlock(listed: nat, drawn: nat): seq<LayoutOp> {
    if listed > 0 then [Reserve(30 + listed * 6), Advance(8)] + Lines(drawn, 6) + [Advance(5)] else []
  }

  /** Urgency block: always checked, drawn only for a tag of the urgency table. */
  function UrgencySection(f: FormData): seq<LayoutOp> {
    [Reserve(25)] + (if FindUrgency(f.urgency).Some? then [Advance(6), Advance(10)] else [])
  }

  /** Budget and timeline block, present when either note is filled in. */
  function BudgetSection(f: FormData, timelineLines: nat): seq<LayoutOp> {
    if f.budget != "" || f.timeline != "" then
      [Reserve(30)]
      + (if f.budget != "" then [Advance(6), Advance(8)] else [])
      + (if f.timeline != "" then [Advance(6), Advance(timelineLines * 5 + 10)] else [])
    else []
  }

  /** Financial summary: always present. */
  const FinancialSection: seq<LayoutOp> := [Reserve(80), Advance(15), Advance(12), Advance(6), Advance(6)]

  /** Client message block, present when the message is not empty. */
  function MessageSection(f: FormData): seq<LayoutOp> {
    if f.contact.message != "" then [Advance(20), Reserve(30), Advance(8)] else []
  }

  /** Every cursor movement of `generatePDF`, in order. */
  function QuoteLayout(f: FormData, timelineLines: nat): seq<LayoutOp> {
    ClientSection(f) + ProjectSection(f) + FeaturesSection(f) + UrgencySection(f)
    + BudgetSection(f, timelineLines) + FinancialSection + MessageSection(f)
  }

  /** `generatePDF` checks for a page break at most six times: once per section
      after the client block. */
  lemma QuoteLayoutReserves(f: FormData, timelineLines: nat)
    ensures Reserves(QuoteLayout(f, timelineLines)) <= 6
  {
    SectionReserves(f, timelineLines);
    PartsReserves(ClientSection(f), ProjectSection(f), FeaturesSection(f), UrgencySection(f),
      BudgetSection(f, timelineLines), FinancialSection, MessageSection(f));
  }

  /** The client block makes no check and every other block makes at most one. */
  lemma SectionReserves(f: FormData, timelineLines: nat)
    ensures Reserves(ClientSection(f)) == 0
    ensures Reserves(ProjectSection(f)) <= 1 && Reserves(FeaturesSection(f)) <= 1
    ensures Reserves(UrgencySection(f)) <= 1 && Reserves(BudgetSection(f, timelineLines)) <= 1
    ensures Reserves(FinancialSection) <= 1 && Reserves(MessageSection(f)) <= 1
  {
    ClientReserves(f);
    ProjectReserves(f);
    FeatureBlockReserves(|f.features|, KnownFeatureCount(f.features));
    UrgencyReserves(f);
    BudgetReserves(f, timelineLines);
    FinancialReserves();
    MessageReserves(f);
  }

  lemma ClientReserves(f: FormData)
    ensures Reserves(ClientSection(f)) == 0
  {
    NoReserve(ClientSection(f));
  }

  lemma ProjectReserves(f: FormData)
    ensures Reserves(ProjectSection(f)) <= 1
  {
    AtMostOneReserve(ProjectSection(f));
  }

  /** The feature block's one check comes first; its lines only advance. */
  lemma FeatureBlockReserves(listed: nat, drawn: nat)
    ensures Reserves(FeatureBlock(listed, drawn)) <= 1
  {
    var lines := Lines(drawn, 6);
    assert forall i :: 0 <= i < |lines| ==> lines[i].Advance?;
    AtMostOneReserve(FeatureBlock(listed, drawn));
  }

  lemma UrgencyReserves(f: FormData)
    ensures Reserves(UrgencySection(f)) <= 1
  {
    AtMostOneReserve(UrgencySection(f));
  }

  lemma BudgetReserves(f: FormData, timelineLines: nat)
    ensures Reserves(BudgetSection(f, timelineLines)) <= 1
  {
    AtMostOneReserve(BudgetSection(f, timelineLines));
  }

  lemma FinancialReserves()
    ensures Reserves(FinancialSection) <= 1
  {
    AtMostOneReserve(FinancialSection);
  }

  lemma MessageReserves(f: FormData)
    ensures Reserves(MessageSection(f)) <= 1
  {
    AtMostOneReserve(MessageSection(f));
  }

  lemma PartsReserves(c: seq<LayoutOp>, p: seq<LayoutOp>, fe: seq<LayoutOp>, u: seq<LayoutOp>,
                      b: seq<LayoutOp>, fin: seq<LayoutOp>, m: seq<LayoutOp>)
    requires Reserves(c) == 0 && Reserves(p) <= 1 && Reserves(fe) <= 1 && Reserves(u) <= 1
    requires Reserves(b) <= 1 && Reserves(fin) <= 1 && Reserves(m) <= 1
    ensures Reserves(c + p + fe + u + b + fin + m) <= 6
  {
    ReservesAppend(c, p);
    ReservesAppend(c + p, fe);
    ReservesAppend(c + p + fe, u);
    ReservesAppend(c + p + fe + u, b);
    ReservesAppend(c + p + fe + u + b, fin);
    ReservesAppend(c + p + fe + u + b + fin, m);
  }

  /** The number of pages `generatePDF` produces. */
  function PageCount(f: FormData, timelineLines: nat): (n: nat)
    ensures 1 <= n <= 7
  {
    LayoutPageBounds(Start, QuoteLayout(f, timelineLines));
    QuoteLayoutReserves(f, timelineLines);
    Layout(Start, QuoteLayout(f, timelineLines)).page
  }

  /** A form with only the mandatory blocks (no company, project, features,
      notes or message) fits on one page. */
  lemma MinimalQuoteFitsOnePage(f: FormData, lines: nat)
    requires f.contact.company == "" && f.projectType == "" && f.features == []
    requires f.budget == "" && f.timeline == "" && f.contact.message == ""
    ensures PageCount(f, lines) == 1
  {
    var c, p, u := ClientSection(f), ProjectSection(f), UrgencySection(f);
    MinimalSections(f, lines);
    LayoutAppend(Start, c, p);
    LayoutAppend(Start, c + p, u);
    LayoutAppend(Start, c + p + u, FinancialSection);
    MinimalHead(c, p);
    MinimalTail(u);
  }

  /** The blocks of a quote with only the mandatory parts. */
  lemma MinimalSections(f: FormData, lines: nat)
    requires f.contact.company == "" && f.projectType == "" && f.features == []
    requires f.budget == "" && f.timeline == "" && f.contact.message == ""
    ensures ClientSection(f) == [Advance(10), Advance(6), Advance(15)]
    ensures ProjectSection(f) == [Reserve(50), Advance(10)]
    ensures UrgencySection(f) == [Reserve(25), Advance(6), Advance(10)] || UrgencySection(f) == [Reserve(25)]
    ensures QuoteLayout(f, lines) == ClientSection(f) + ProjectSection(f) + UrgencySection(f) + FinancialSection
  {
    EmptyIdIsNoProject();
    var c, p, u := ClientSection(f), ProjectSection(f), UrgencySection(f);
    assert FeaturesSection(f) == [] && BudgetSection(f, lines) == [] && MessageSection(f) == [];
    assert c + p + [] + u + [] + FinancialSection + [] == c + p + u + FinancialSection;
  }

  lemma MinimalHead(c: seq<LayoutOp>, p: seq<LayoutOp>)
    requires c == [Advance(10), Advance(6), Advance(15)] && p == [Reserve(50), Advance(10)]
    ensures Layout(Layout(Start, c), p) == Cursor(86, 1)
  {
    assert Layout(Cursor(45, 1), [Advance(10), Advance(6), Advance(15)]) == Cursor(76, 1);
    assert Layout(Cursor(76, 1), [Reserve(50), Advance(10)]) == Cursor(86, 1);
  }

  lemma MinimalTail(u: seq<LayoutOp>)
    requires u == [Reserve(25), Advance(6), Advance(10)] || u == [Reserve(25)]
    ensures Layout(Layout(Cursor(86, 1), u), FinancialSection).page == 1
  {
    if u == [Reserve(25)] {
      assert Layout(Cursor(86, 1), [Reserve(25)]) == Cursor(86, 1);
      assert Layout(Cursor(86, 1), [Reserve(80), Advance(15), Advance(12), Advance(6), Advance(6)]) == Cursor(125, 1);
    } else {
      assert Layout(Cursor(86, 1), [Reserve(25), Advance(6), Advance(10)]) == Cursor(102, 1);
      assert Layout(Cursor(102, 1), [Reserve(80), Advance(15), Advance(12), Advance(6), Advance(6)]) == Cursor(141, 1);
    }
  }

  /** The form `FullQuoteTakesTwoPages` is about. */
  predicate FullyFilled(f: FormData) {
    && f.contact.company != "" && f.projectType == "webapp" && f.urgency == "urgent"
    && |f.features| == |Features| && (forall k :: 0 <= k < |Features| ==> f.features[k] == Features[k].id)
    && f.budget != "" && f.timeline != "" && f.contact.message != ""
  }

  /** The client, project, features and urgency blocks of a fully filled-in quote. */
  lemma FullQuoteSections(f: FormData)
    requires FullyFilled(f)
    ensures ClientSection(f) == [Advance(10), Advance(6), Advance(6), Advance(15)]
    ensures ProjectSection(f) == [Reserve(50), Advance(10), Advance(6), Advance(6), Advance(10)]
    ensures FeaturesSection(f) == [Reserve(78), Advance(8), Advance(6), Advance(6), Advance(6), Advance(6),
      Advance(6), Advance(6), Advance(6), Advance(6), Advance(5)]
    ensures UrgencySection(f) == [Reserve(25), Advance(6), Advance(10)]
  {
    FullQuoteClient(f);
    FullQuoteProject(f);
    FullQuoteFeatures(f);
    UrgentSection(f);
  }

  lemma FullQuoteClient(f: FormData)
    requires f.contact.company != ""
    ensures ClientSection(f) == [Advance(10), Advance(6), Advance(6), Advance(15)]
  {
  }

  lemma UrgentSection(f: FormData)
    requires f.urgency == "urgent"
    ensures UrgencySection(f) == [Reserve(25), Advance(6), Advance(10)]
  {
    assert FindUrgency("urgent").Some?;
  }

  lemma FullQuoteProject(f: FormData)
    requires FullyFilled(f)
    ensures ProjectSection(f) == [Reserve(50), Advance(10), Advance(6), Advance(6), Advance(10)]
  {
    assert FindProject("webapp").Some?;
  }

  lemma FullQuoteFeatures(f: FormData)
    requires FullyFilled(f)
    ensures FeaturesSection(f) == [Reserve(78), Advance(8), Advance(6), Advance(6), Advance(6), Advance(6),
      Advance(6), Advance(6), Advance(6), Advance(6), Advance(5)]
  {
    FullQuoteFeatureCount(f);
    assert FeaturesSection(f) == FeatureBlock(8, 8);
    EightFeatureBlock();
  }

  /** Eight ids, all drawn: one 78 mm check, the title, eight lines, the gap. */
  lemma EightFeatureBlock()
    ensures FeatureBlock(8, 8) == [Reserve(78), Advance(8), Advance(6), Advance(6), Advance(6), Advance(6),
      Advance(6), Advance(6), Advance(6), Advance(6), Advance(5)]
  {
    EightLines();
    assert FeatureBlock(8, 8) == [Reserve(78), Advance(8)] + Lines(8, 6) + [Advance(5)];
  }

  lemma EightLines()
    ensures Lines(8, 6) == [Advance(6), Advance(6), Advance(6), Advance(6), Advance(6), Advance(6), Advance(6), Advance(6)]
  {
    var l := Lines(8, 6);
    assert |l| == 8;
    assert l[0] == l[1] == l[2] == l[3] == l[4] == l[5] == l[6] == l[7] == Advance(6);
  }

  lemma FullQuoteFeatureCount(f: FormData)
    requires FullyFilled(f)
    ensures KnownFeatureCount(f.features) == 8
  {
    FullQuoteFeatureIds(f);
    KnownFeatureCountAll(f.features);
  }

  lemma FullQuoteFeatureIds(f: FormData)
    requires FullyFilled(f)
    ensures forall k :: 0 <= k < |f.features| ==> IsFeatureId(f.features[k])
  {
    forall k | 0 <= k < |f.features| ensures IsFeatureId(f.features[k]) {
      assert f.features[k] == Features[k].id;
    }
  }

  /** Those four blocks end 191 mm down the first page. */
  lemma FullQuoteHead(c: seq<LayoutOp>, p: seq<LayoutOp>, fe: seq<LayoutOp>, u: seq<LayoutOp>)
    requires c == [Advance(10), Advance(6), Advance(6), Advance(15)]
    requires p == [Reserve(50), Advance(10), Advance(6), Advance(6), Advance(10)]
    requires fe == [Reserve(78), Advance(8), Advance(6), Advance(6), Advance(6), Advance(6),
      Advance(6), Advance(6), Advance(6), Advance(6), Advance(5)]
    requires u == [Reserve(25), Advance(6), Advance(10)]
    ensures Layout(Start, c + p + fe + u) == Cursor(191, 1)
  {
    LayoutAppend(Start, c, p);
    LayoutAppend(Start, c + p, fe);
    LayoutAppend(Start, c + p + fe, u);
    assert Layout(Cursor(45, 1), [Advance(10), Advance(6), Advance(6), Advance(15)]) == Cursor(82, 1);
    assert Layout(Cursor(82, 1), [Reserve(50), Advance(10), Advance(6), Advance(6), Advance(10)]) == Cursor(114, 1);
    assert Layout(Cursor(114, 1), [Reserve(78), Advance(8), Advance(6), Advance(6), Advance(6), Advance(6),
      Advance(6), Advance(6), Advance(6), Advance(6), Advance(5)]) == Cursor(175, 1);
    assert Layout(Cursor(175, 1), [Reserve(25), Advance(6), Advance(10)]) == Cursor(191, 1);
  }

  /** After the urgency block at 191 mm, the budget and timeline block leaves no
      room for the 80 mm financial summary, which moves to page 2 with the
      message block after it. */
  lemma FullQuoteTail(start: Cursor, b1: seq<LayoutOp>, b2: seq<LayoutOp>, m: seq<LayoutOp>, lines: nat)
    requires start == Cursor(191, 1)
    requires b1 == [Reserve(30), Advance(6), Advance(8), Advance(6)] && b2 == [Advance(lines * 5 + 10)]
    requires m == [Advance(20), Reserve(30), Advance(8)]
    ensures Layout(start, b1 + b2 + FinancialSection + m) == Cursor(107, 2)
  {
    var fin := [Reserve(80), Advance(15), Advance(12), Advance(6), Advance(6)];
    assert FinancialSection == fin;
    assert b1 + b2 + FinancialSection + m == (b1 + b2) + (fin + m);
    LayoutAppend(start, b1 + b2, fin + m);
    LayoutAppend(start, b1, b2);
    assert Layout(Cursor(191, 1), [Reserve(30), Advance(6), Advance(8), Advance(6)]) == Cursor(211, 1);
    assert Layout(Cursor(211, 1), b2) == Cursor(221 + lines * 5, 1) by {
      assert b2[1..] == [];
    }
    var mid := Cursor(221 + lines * 5, 1);
    assert Layout(start, b1 + b2) == mid;
    LayoutAppend(mid, fin, m);
    assert Layout(mid, fin) == Layout(Cursor(40, 2), fin[1..]);
    assert fin[1..] == [Advance(15), Advance(12), Advance(6), Advance(6)];
    assert Layout(Cursor(40, 2), [Advance(15), Advance(12), Advance(6), Advance(6)]) == Cursor(79, 2);
    assert Layout(Cursor(79, 2), [Advance(20), Reserve(30), Advance(8)]) == Cursor(107, 2);
  }

  /** A fully filled-in quote (company, web application, all eight features, urgent,
      budget, timeline, message) always pushes the financial summary to page 2,
      however many lines the timeline note wraps to. */
  lemma FullQuoteTakesTwoPages(f: FormData, lines: nat)
    requires FullyFilled(f)
    ensures PageCount(f, lines) == 2
  {
    var c, p, fe, u := ClientSection(f), ProjectSection(f), FeaturesSection(f), UrgencySection(f);
    var b, m := BudgetSection(f, lines), MessageSection(f);
    var b1, b2 := [Reserve(30), Advance(6), Advance(8), Advance(6)], [Advance(lines * 5 + 10)];
    FullQuoteSections(f);
    FullQuoteNotes(f, lines);
    FullQuoteHead(c, p, fe, u);
    LayoutHeadTail(Start, c, p, fe, u, b, FinancialSection, m);
    FullQuoteTail(Cursor(191, 1), b1, b2, m, lines);
  }

  lemma FullQuoteNotes(f: FormData, lines: nat)
    requires FullyFilled(f)
    ensures BudgetSection(f, lines) == [Reserve(30), Advance(6), Advance(8), Advance(6)] + [Advance(lines * 5 + 10)]
    ensures MessageSection(f) == [Advance(20), Reserve(30), Advance(8)]
  {
  }

  lemma LayoutHeadTail(s: Cursor, h1: seq<LayoutOp>, h2: seq<LayoutOp>, h3: seq<LayoutOp>, h4: seq<LayoutOp>,
                       t1: seq<LayoutOp>, t2: seq<LayoutOp>, t3: seq<LayoutOp>)
    ensures Layout(s, h1 + h2 + h3 + h4 + t1 + t2 + t3) == Layout(Layout(s, h1 + h2 + h3 + h4), t1 + t2 + t3)
  {
    assert h1 + h2 + h3 + h4 + t1 + t2 + t3 == (h1 + h2 + h3 + h4) + (t1 + t2 + t3);
    LayoutAppend(s, h1 + h2 + h3 + h4, t1 + t2 + t3);
  }

  /** The percentage label shown next to the urgency tier: none for a multiplier
      of exactly 1, otherwise `+n%` or `-n%` with `n` the distance from 1 in
      percent, rounded. */
  function CoefficientLabel(m: Ratio): (r: Option<string>)
    requires m.Valid()
    ensures r.None? <==> m.num == m.den
    ensures r.Some? ==> |r.value| >= 3
    ensures r.Some? ==> r.value[0] == (if m.num > m.den then '+' else '-')
    ensures r.Some? ==> r.value[|r.value| - 1] == '%'
    ensures r.Some? ==> IsDigits(r.value[1..|r.value| - 1])
    ensures r.Some? ==> CanonicalDigits(r.value[1..|r.value| - 1])
    ensures r.Some? ==> var n := DigitsValue(r.value[1..|r.value| - 1]);
      var d := if m.num > m.den then m.num - m.den else m.den - m.num;
      2 * m.den * n <= 2 * (d * 100) + m.den < 2 * m.den * n + 2 * m.den
  {
    if m.num == m.den then None
    else
      var d := if m.num > m.den then m.num - m.den else m.den - m.num;
      var n := RoundHalfUp(d * 100, m.den);
      var digits := NatToString(n);
      var sign := if m.num > m.den then '+' else '-';
      var shown := [sign] + digits + "%";
      NatToStringRoundTrip(n);
      assert shown[1..|shown| - 1] == digits;
      Some(shown)
  }

  /** The catalog's labels: flexible is -10%, standard has none, urgent is +30%. */
  lemma CatalogCoefficientLabels()
    ensures CoefficientLabel(UrgencyTiers[0].multiplier) == Some("-10%")
    ensures CoefficientLabel(UrgencyTiers[1].multiplier) == None
    ensures CoefficientLabel(UrgencyTiers[2].multiplier) == Some("+30%")
  {
    assert RoundHalfUp(100, 10) == 10;
    assert RoundHalfUp(300, 10) == 30;
    assert NatToString(10) == NatToString(1) + [DigitChar(0)] == "10";
    assert NatToString(30) == NatToString(3) + [DigitChar(0)] == "30";
    assert UrgencyTiers[0].multiplier == Ratio(9, 10) && UrgencyTiers[2].multiplier == Ratio(13, 10);
    assert ['-'] + "10" + "%" == "-10%";
    assert ['+'] + "30" + "%" == "+30%";
  }

  /** The download name: `devis-`, the client name with each whitespace run
      replaced by one `-`, `-`, the timestamp in milliseconds, `.pdf`. It holds
      no whitespace at all, and the digits before `.pdf` read back as the
      timestamp. */
  function QuoteFilename(clientName: string, now: nat): (r: string)
    ensures |r| >= 12 && r[..6] == "devis-" && r[|r| - 4..] == ".pdf"
    ensures NoJsWhitespace(r)
    ensures var n := |NatToString(now)|;
      && |r| >= 11 + n
      && r[6..|r| - 5 - n] == ReplaceWhitespaceRuns(clientName, '-')
      && r[|r| - 5 - n] == '-'
      && IsDigits(r[|r| - 4 - n..|r| - 4]) && DigitsValue(r[|r| - 4 - n..|r| - 4]) == now
      && r[|r| - 4 - n..|r| - 4] == NatToString(now)
  {
    var middle := ReplaceWhitespaceRuns(clientName, '-');
    var stamp := NatToString(now);
    ReplaceWhitespaceRunsRemovesWhitespace(clientName, '-');
    DigitsHaveNoWhitespace(stamp);
    NatToStringRoundTrip(now);
    FilenameShape(middle, stamp);
    "devis-" + middle + "-" + stamp + ".pdf"
  }

  /** Wrapping a whitespace-free middle and a non-empty whitespace-free stamp
      gives a name of the expected shape, with no whitespace, from which both
      parts can be cut back out. */
  lemma FilenameShape(middle: string, stamp: string)
    requires |stamp| >= 1 && NoJsWhitespace(middle) && NoJsWhitespace(stamp)
    ensures var r := "devis-" + middle + "-" + stamp + ".pdf";
      && |r| >= 12 && r[..6] == "devis-" && r[|r| - 4..] == ".pdf" && NoJsWhitespace(r)
      && |r| == 11 + |middle| + |stamp|
      && r[6..|r| - 5 - |stamp|] == middle && r[|r| - 5 - |stamp|] == '-'
      && r[|r| - 4 - |stamp|..|r| - 4] == stamp
  {
    var head := "devis-" + middle + "-" + stamp;
    var r := head + ".pdf";
    assert r[..6] == head[..6] == "devis-";
    assert r[|r| - 4..] == ".pdf";
    assert r[6..|r| - 5 - |stamp|] == middle;
    assert r[|r| - 4 - |stamp|..|r| - 4] == stamp;
    NoWhitespaceConcat("devis-", middle);
    NoWhitespaceConcat("devis-" + middle, "-");
    NoWhitespaceConcat("devis-" + middle + "-", stamp);
    NoWhitespaceConcat(head, ".pdf");
  }

  lemma DigitsHaveNoWhitespace(s: string)
    requires IsDigits(s)
    ensures NoJsWhitespace(s)
  {
  }

  lemma NoWhitespaceConcat(a: string, b: string)
    requires NoJsWhitespace(a) && NoJsWhitespace(b)
    ensures NoJsWhitespace(a + b)
  {
    forall i | 0 <= i < |a + b| ensures !IsJsWhitespace((a + b)[i]) {
      if i >= |a| {
        assert (a + b)[i] == b[i - |a|];
      }
    }
  }

  /** A client name without whitespace appears in the file name unchanged. */
  lemma FilenameKeepsPlainName(clientName: string, now: nat)
    requires NoJsWhitespace(clientName)
    ensures QuoteFilename(clientName, now) == "devis-" + clientName + "-" + NatToString(now) + ".pdf"
  {
    ReplaceWhitespaceRunsIdentity(clientName, '-');
  }

  /** A two-word client name, whatever whitespace separates the words, appears
      in the file name with the words joined by a single `-`. */
  lemma FilenameJoinsWords(first: string, gap: string, last: string, now: nat)
    requires NoJsWhitespace(first) && NoJsWhitespace(last)
    requires |gap| > 0 && forall i :: 0 <= i < |gap| ==> IsJsWhitespace(gap[i])
    ensures QuoteFilename(first + gap + last, now)
         == "devis-" + first + "-" + last + "-" + NatToString(now) + ".pdf"
  {
    assert first == [] || !IsJsWhitespace(first[|first| - 1]);
    assert last == [] || !IsJsWhitespace(last[0]);
    ReplaceWhitespaceRunsOneRun(first, gap, last, '-');
    ReplaceWhitespaceRunsIdentity(first, '-');
    ReplaceWhitespaceRunsIdentity(last, '-');
    var middle := first + "-" + last;
    assert ReplaceWhitespaceRuns(first + gap + last, '-') == middle;
    ConcatAssoc("devis-", first + "-", last);
    ConcatAssoc("devis-", first, "-");
  }

  /** How the document leaves `generatePDF`: saved as a download, or returned as a
      blob together with the name it would have been saved under. */
  datatype Delivery = Download | InMemory

  datatype PdfDocument = PdfDocument(pages: nat, filename: string, delivery: Delivery)

  /** `generatePDF(saveToFile)` reduced to what the model keeps: the page count and
      the file name, which both delivery paths build the same way. */
  function GeneratePdf(f: FormData, timelineLines: nat, now: nat, saveToFile: bool): (d: PdfDocument)
    ensures 1 <= d.pages <= 7
    ensures d.delivery == (if saveToFile then Download else InMemory)
    ensures |d.filename| >= 12 && d.filename[..6] == "devis-" && NoJsWhitespace(d.filename)
    ensures d.filename == QuoteFilename(f.contact.name, now)
    ensures d.pages == PageCount(f, timelineLines)
  {
    PdfDocument(PageCount(f, timelineLines), QuoteFilename(f.contact.name, now), if saveToFile then Download else InMemory)
  }
}
