/** `format_pr_for_review`: the text document the language model is sent.
    The document is described as a sequence of blocks, one per interpolated
    piece of the source's f-strings, each rendered to the text the source
    appends; the method builds the same text with a loop of `+=`. */
module Formatter {
  import opened Wrappers
  import opened Decimal
  import opened PullRequest
  import opened ReviewerConfig

  const Placeholder: string := "No description provided"
  const Removed: string := "removed"

  /** `pr['body'] or 'No description provided'`: the body when it is truthy. */
  function DescriptionText(body: Option<string>): string {
    if Truthy(body) then body.value else Placeholder
  }

  /** A file gets a fenced diff exactly when it is not removed and has a patch. */
  predicate HasDiff(f: FileChange) {
    f.status != Removed && f.patch.Some?
  }

  datatype Block =
    | Opening(title: string, author: string, state: string, created: string, updated: string,
              description: string, fileCount: nat)
    | Heading(filename: string)
    | Status(status: string)
    | Counts(additions: nat, deletions: nat)
    | Diff(patch: string)

  /** The lines of the opening f-string in front of the description. */
  function HeaderText(title: string, author: string, state: string, created: string, updated: string): string {
    "\n## Pull Request Information\n**Title:** " + title + "\n**Author:** " + author
    + "\n**State:** " + state + "\n**Created:** " + created + "\n**Updated:** " + updated
    + "\n\n**Description:**\n"
  }

  /** The text each block contributes, exactly as the f-strings spell it. */
  function RenderBlock(b: Block): string {
    match b
    case Opening(t, a, s, c, u, text, n) =>
      HeaderText(t, a, s, c, u) + text + "\n\n## Files Changed (" + NatToString(n) + " files):\n"
    case Heading(name) => "\n### " + name
    case Status(s) => "\n- **Status:** " + s
    case Counts(a, d) => "\n- **Additions:** " + NatToString(a) + ", **Deletions:** " + NatToString(d)
    case Diff(p) => "\n\n**Changes:**\n```diff\n" + p + "\n```\n"
  }

  /** The texts `show` gives the elements of `bs`, one after the other. */
  function Concat<B>(bs: seq<B>, show: B -> string): string {
    if bs == [] then "" else Concat(bs[..|bs| - 1], show) + show(bs[|bs| - 1])
  }

  /** The blocks' texts, one after the other. */
  function Render(bs: seq<Block>): string {
    Concat(bs, RenderBlock)
  }

  lemma ConcatSnoc<B>(bs: seq<B>, b: B, show: B -> string)
    ensures Concat(bs + [b], show) == Concat(bs, show) + show(b)
  {
    assert (bs + [b])[..|bs|] == bs;
  }

  lemma {:induction false} ConcatAppend<B>(a: seq<B>, b: seq<B>, show: B -> string)
    ensures Concat(a + b, show) == Concat(a, show) + Concat(b, show)
    decreases |b|
  {
    if b == [] {
      assert a + b == a;
    } else {
      var init, last := b[..|b| - 1], b[|b| - 1];
      assert a + b == (a + init) + [last];
      ConcatSnoc(a + init, last, show);
      ConcatAppend(a, init, show);
      ConcatSnoc(init, last, show);
      assert init + [last] == b;
    }
  }

  /** The opening f-string: header, description and the files count. */
  function OpeningBlock(pr: Metadata, fileCount: nat): Block {
    Opening(pr.title, pr.authorLogin, pr.state, pr.createdAt, pr.updatedAt,
            DescriptionText(pr.body), fileCount)
  }

  /** One iteration of the `for file in files` loop. */
  function FileSection(f: FileChange): seq<Block> {
    [Heading(f.filename), Status(f.status), Counts(f.additions, f.deletions)]
    + (if HasDiff(f) then [Diff(f.patch.value)] else [])
  }

  /** The sections of all files, in input order. */
  function FileSections(files: seq<FileChange>): seq<Block> {
    if files == [] then [] else FileSections(files[..|files| - 1]) + FileSection(files[|files| - 1])
  }

  function Layout(data: PrData): seq<Block> {
    [OpeningBlock(data.pr, |data.files|)] + FileSections(data.files)
  }

  /** The document `format_pr_for_review(data)` returns. */
  function Document(data: PrData): string {
    Render(Layout(data))
  }

  lemma RenderSnoc(bs: seq<Block>, b: Block)
    ensures Render(bs + [b]) == Render(bs) + RenderBlock(b)
  {
    ConcatSnoc(bs, b, RenderBlock);
  }

  /** The sections of a prefix grow by the next file's section. */
  lemma FileSectionsSnoc(files: seq<FileChange>, i: nat)
    requires i < |files|
    ensures FileSections(files[..i + 1]) == FileSections(files[..i]) + FileSection(files[i])
  {
    assert files[..i + 1][..i] == files[..i];
  }

  /** Rendering one more file's section appends its lines to the text so far. */
  lemma RenderSection(bs: seq<Block>, f: FileChange)
    ensures HasDiff(f) ==>
              Render(bs + FileSection(f))
              == Render(bs) + RenderBlock(Heading(f.filename)) + RenderBlock(Status(f.status))
                 + RenderBlock(Counts(f.additions, f.deletions)) + RenderBlock(Diff(f.patch.value))
    ensures !HasDiff(f) ==>
              Render(bs + FileSection(f))
              == Render(bs) + RenderBlock(Heading(f.filename)) + RenderBlock(Status(f.status))
                 + RenderBlock(Counts(f.additions, f.deletions))
  {
    var lines := bs + [Heading(f.filename)] + [Status(f.status)] + [Counts(f.additions, f.deletions)];
    SectionSplit(bs, f);
    if HasDiff(f) {
      RenderLines(bs, f, lines);
      RenderSnocAt(lines, Diff(f.patch.value), bs + FileSection(f));
    } else {
      RenderLines(bs, f, bs + FileSection(f));
    }
  }

  /** The section as singletons, stated apart so that no proof needs to unfold `FileSection` and `Render` together. */
  lemma SectionSplit(bs: seq<Block>, f: FileChange)
    ensures bs + FileSection(f)
            == bs + [Heading(f.filename)] + [Status(f.status)] + [Counts(f.additions, f.deletions)]
               + (if HasDiff(f) then [Diff(f.patch.value)] else [])
  {
  }

  /** `RenderSnoc` for a sequence named by a parameter, which keeps `RenderBlock`'s literals from being unfolded at the caller. */
  lemma RenderSnocAt(bs: seq<Block>, b: Block, x: seq<Block>)
    requires x == bs + [b]
    ensures Render(x) == Render(bs) + RenderBlock(b)
  {
    RenderSnoc(bs, b);
  }

  lemma RenderLines(bs: seq<Block>, f: FileChange, x: seq<Block>)
    requires x == bs + [Heading(f.filename)] + [Status(f.status)] + [Counts(f.additions, f.deletions)]
    ensures Render(x)
            == Render(bs) + RenderBlock(Heading(f.filename)) + RenderBlock(Status(f.status))
               + RenderBlock(Counts(f.additions, f.deletions))
  {
    var b1 := bs + [Heading(f.filename)];
    var b2 := b1 + [Status(f.status)];
    RenderSnoc(bs, Heading(f.filename));
    RenderSnoc(b1, Status(f.status));
    RenderSnoc(b2, Counts(f.additions, f.deletions));
  }

  /** The blocks of the document once the first `i` files are formatted. */
  function LayoutUpTo(data: PrData, i: nat): seq<Block>
    requires i <= |data.files|
  {
    [OpeningBlock(data.pr, |data.files|)] + FileSections(data.files[..i])
  }

  lemma LayoutUpToNext(data: PrData, i: nat)
    requires i < |data.files|
    ensures LayoutUpTo(data, i + 1) == LayoutUpTo(data, i) + FileSection(data.files[i])
  {
    FileSectionsSnoc(data.files, i);
  }

  lemma FormatStep(data: PrData, i: nat)
    requires i < |data.files|
    ensures var f := data.files[i];
            var before := Render(LayoutUpTo(data, i));
            var lines := before + RenderBlock(Heading(f.filename)) + RenderBlock(Status(f.status))
                         + RenderBlock(Counts(f.additions, f.deletions));
            Render(LayoutUpTo(data, i + 1)) == if HasDiff(f) then lines + RenderBlock(Diff(f.patch.value)) else lines
  {
    LayoutUpToNext(data, i);
    RenderSection(LayoutUpTo(data, i), data.files[i]);
  }

  /** `format_pr_for_review`: the opening f-string, then for each file the
      heading, status and counts lines and, when the file has one, its diff. */
  method FormatPrForReview(data: PrData) returns (formatted: string)
    ensures formatted == Document(data)
  {
    var pr, files := data.pr, data.files;
    formatted := RenderBlock(OpeningBlock(pr, |files|));
    RenderSnoc([], OpeningBlock(pr, |files|));
    assert LayoutUpTo(data, 0) == [] + [OpeningBlock(pr, |files|)];
    for i := 0 to |files|
      invariant formatted == Render(LayoutUpTo(data, i))
    {
      var file := files[i];
      FormatStep(data, i);
      formatted := formatted + RenderBlock(Heading(file.filename));
      formatted := formatted + RenderBlock(Status(file.status));
      formatted := formatted + RenderBlock(Counts(file.additions, file.deletions));
      if file.status != Removed && file.patch.Some? {
        formatted := formatted + RenderBlock(Diff(file.patch.value));
      }
    }
    assert files[..|files|] == files;
  }

  // Properties of the document

  lemma RenderAppend(a: seq<Block>, b: seq<Block>)
    ensures Render(a + b) == Render(a) + Render(b)
  {
    ConcatAppend(a, b, RenderBlock);
  }

  /** Each block's text stands in the document, whole, right after the text
      of the blocks before it. */
  lemma RenderedAt(bs: seq<Block>, i: nat)
    requires i < |bs|
    ensures var start := |Render(bs[..i])|;
            start + |RenderBlock(bs[i])| <= |Render(bs)|
            && Render(bs)[start..start + |RenderBlock(bs[i])|] == RenderBlock(bs[i])
  {
    assert bs == bs[..i] + [bs[i]] + bs[i + 1..];
    RenderSnoc(bs[..i], bs[i]);
    RenderAppend(bs[..i] + [bs[i]], bs[i + 1..]);
  }

  /** The document is the opening f-string followed by the file sections. */
  lemma DocumentSplit(data: PrData)
    ensures Document(data) == RenderBlock(OpeningBlock(data.pr, |data.files|)) + Render(FileSections(data.files))
  {
    RenderAppend([OpeningBlock(data.pr, |data.files|)], FileSections(data.files));
    RenderSnoc([], OpeningBlock(data.pr, |data.files|));
    assert [] + [OpeningBlock(data.pr, |data.files|)] == [OpeningBlock(data.pr, |data.files|)];
  }

  /** The description slot holds the body verbatim when it is truthy, and the
      placeholder otherwise; the placeholder shows there only for a falsy body
      or for a body that is itself the placeholder text. */
  lemma DescriptionSlot(body: Option<string>)
    ensures Truthy(body) ==> DescriptionText(body) == body.value
    ensures !Truthy(body) ==> DescriptionText(body) == Placeholder
    ensures DescriptionText(body) == Placeholder <==> !Truthy(body) || body == Some(Placeholder)
  {
  }

  /** An absent body and an empty body give the same document. */
  lemma FalsyBodiesAgree(data: PrData)
    ensures Document(data.(pr := data.pr.(body := None)))
            == Document(data.(pr := data.pr.(body := Some(""))))
  {
  }

  /** Where the description starts in the document: after the header lines. */
  function DescriptionOffset(pr: Metadata): nat {
    |HeaderText(pr.title, pr.authorLogin, pr.state, pr.createdAt, pr.updatedAt)|
  }


  /** The document carries the description text at its offset: the body
      verbatim, or the placeholder. */
  lemma DocumentDescription(data: PrData)
    ensures var d := DescriptionText(data.pr.body);
            var k := DescriptionOffset(data.pr);
            k + |d| <= |Document(data)| && Document(data)[k..k + |d|] == d
  {
    DocumentSplit(data);
  }

  // Headings: one per file, in input order

  /** The file names of the heading blocks, in order. */
  function Headings(bs: seq<Block>): seq<string> {
    if bs == [] then []
    else Headings(bs[..|bs| - 1]) + (if bs[|bs| - 1].Heading? then [bs[|bs| - 1].filename] else [])
  }

  lemma {:induction false} HeadingsAppend(a: seq<Block>, b: seq<Block>)
    ensures Headings(a + b) == Headings(a) + Headings(b)
    decreases |b|
  {
    if b == [] {
      assert a + b == a;
    } else {
      var init := b[..|b| - 1];
      assert a + b == (a + init) + [b[|b| - 1]];
      assert (a + b)[..|a + b| - 1] == a + init;
      HeadingsAppend(a, init);
    }
  }

  function Filenames(files: seq<FileChange>): (names: seq<string>)
    ensures |names| == |files| && forall i :: 0 <= i < |files| ==> names[i] == files[i].filename
  {
    seq(|files|, i requires 0 <= i < |files| => files[i].filename)
  }

  lemma {:induction false} HeadingsOfSections(files: seq<FileChange>)
    ensures Headings(FileSections(files)) == Filenames(files)
    decreases |files|
  {
    if files != [] {
      var init := files[..|files| - 1];
      var f := files[|files| - 1];
      HeadingsOfSections(init);
      HeadingsAppend(FileSections(init), FileSection(f));
      SectionHeadings(f);
      assert Filenames(files) == Filenames(init) + [f.filename];
    }
  }

  lemma SectionHeadings(f: FileChange)
    ensures Headings(FileSection(f)) == [f.filename]
  {
    var h, st, c := Heading(f.filename), Status(f.status), Counts(f.additions, f.deletions);
    var d := if HasDiff(f) then [Diff(f.patch.value)] else [];
    assert FileSection(f) == [h] + [st] + [c] + d;
    HeadingsAppend([h] + [st] + [c], d);
    HeadingsAppend([h] + [st], [c]);
    HeadingsAppend([h], [st]);
    assert [h][..0] == [] && [st][..0] == [] && [c][..0] == [];
    assert d != [] ==> d[..0] == [];
  }

  /** The document has exactly one `### <filename>` heading per input file,
      in input order. */
  lemma {:induction false} OneHeadingPerFile(data: PrData)
    ensures Headings(Layout(data)) == Filenames(data.files)
  {
    HeadingsAppend([OpeningBlock(data.pr, |data.files|)], FileSections(data.files));
    HeadingsOfSections(data.files);
    assert [OpeningBlock(data.pr, |data.files|)][..0] == [];
  }

  // Sections: file i's blocks stand together, in place

  lemma {:induction false} FileSectionsPrefix(files: seq<FileChange>, j: nat)
    requires j <= |files|
    ensures FileSections(files[..j]) <= FileSections(files)
    decreases |files| - j
  {
    if j < |files| {
      FileSectionsPrefix(files, j + 1);
      FileSectionsSnoc(files, j);
    } else {
      assert files[..j] == files;
    }
  }

  /** File `i`'s heading, status, counts and (when it has one) diff stand
      together in the document, right after the sections of the files before it. */
  lemma SectionAt(data: PrData, i: nat)
    requires i < |data.files|
    ensures var start := |LayoutUpTo(data, i)|;
            var section := FileSection(data.files[i]);
            start + |section| <= |Layout(data)| && Layout(data)[start..start + |section|] == section
  {
    LayoutUpToNext(data, i);
    FileSectionsPrefix(data.files, i + 1);
    var prefix := LayoutUpTo(data, i + 1);
    assert prefix <= Layout(data);
    assert Layout(data)[..|prefix|] == prefix;
    assert prefix[|LayoutUpTo(data, i)|..] == FileSection(data.files[i]);
  }

  // Diff blocks: exactly the files that are not removed and have a patch

  /** The patches of the diff blocks, in order. */
  function Diffs(bs: seq<Block>): seq<string> {
    if bs == [] then []
    else Diffs(bs[..|bs| - 1]) + (if bs[|bs| - 1].Diff? then [bs[|bs| - 1].patch] else [])
  }

  /** Reference definition: the patches of the files that get a diff, in input order. */
  function DiffedPatches(files: seq<FileChange>): seq<string> {
    if files == [] then []
    else (if HasDiff(files[0]) then [files[0].patch.value] else []) + DiffedPatches(files[1..])
  }

  /** How many files get a diff. */
  function CountWithDiff(files: seq<FileChange>): nat {
    if files == [] then 0 else (if HasDiff(files[0]) then 1 else 0) + CountWithDiff(files[1..])
  }

  lemma {:induction false} DiffsAppend(a: seq<Block>, b: seq<Block>)
    ensures Diffs(a + b) == Diffs(a) + Diffs(b)
    decreases |b|
  {
    if b == [] {
      assert a + b == a;
    } else {
      var init := b[..|b| - 1];
      assert a + b == (a + init) + [b[|b| - 1]];
      assert (a + b)[..|a + b| - 1] == a + init;
      DiffsAppend(a, init);
    }
  }

  lemma {:induction false} DiffedPatchesAppend(a: seq<FileChange>, b: seq<FileChange>)
    ensures DiffedPatches(a + b) == DiffedPatches(a) + DiffedPatches(b)
    decreases |a|
  {
    if a == [] {
      assert a + b == b;
    } else {
      assert (a + b)[1..] == a[1..] + b;
      DiffedPatchesAppend(a[1..], b);
    }
  }

  lemma SectionDiffs(f: FileChange)
    ensures Diffs(FileSection(f)) == if HasDiff(f) then [f.patch.value] else []
  {
    var h, st, c := Heading(f.filename), Status(f.status), Counts(f.additions, f.deletions);
    var d := if HasDiff(f) then [Diff(f.patch.value)] else [];
    assert FileSection(f) == [h] + [st] + [c] + d;
    DiffsAppend([h] + [st] + [c], d);
    DiffsAppend([h] + [st], [c]);
    DiffsAppend([h], [st]);
    assert [h][..0] == [] && [st][..0] == [] && [c][..0] == [];
    assert d != [] ==> d[..0] == [];
  }

  lemma {:induction false} DiffsOfSections(files: seq<FileChange>)
    ensures Diffs(FileSections(files)) == DiffedPatches(files)
    decreases |files|
  {
    if files != [] {
      var init := files[..|files| - 1];
      var f := files[|files| - 1];
      DiffsOfSections(init);
      DiffsAppend(FileSections(init), FileSection(f));
      SectionDiffs(f);
      assert files == init + [f];
      DiffedPatchesAppend(init, [f]);
      assert DiffedPatches([f]) == (if HasDiff(f) then [f.patch.value] else []) + DiffedPatches([]);
    }
  }

  lemma {:induction false} DiffedPatchesCount(files: seq<FileChange>)
    ensures |DiffedPatches(files)| == CountWithDiff(files)
    decreases |files|
  {
    if files != [] {
      DiffedPatchesCount(files[1..]);
    }
  }

  /** The document's diff blocks are the patches of the files that are not
      removed and have one, in input order, so their number is the number of
      such files. */
  lemma {:induction false} DiffBlocksMatchFiles(data: PrData)
    ensures Diffs(Layout(data)) == DiffedPatches(data.files)
    ensures |Diffs(Layout(data))| == CountWithDiff(data.files)
  {
    DiffsAppend([OpeningBlock(data.pr, |data.files|)], FileSections(data.files));
    assert [OpeningBlock(data.pr, |data.files|)][..0] == [];
    DiffsOfSections(data.files);
    DiffedPatchesCount(data.files);
  }

  /** A removed file never gets a diff block, even when it carries a patch. */
  lemma RemovedFileHasNoDiff(data: PrData, i: nat)
    requires i < |data.files| && data.files[i].status == Removed
    ensures Diffs(FileSection(data.files[i])) == []
    ensures forall b :: b in FileSection(data.files[i]) ==> !b.Diff?
  {
    SectionDiffs(data.files[i]);
  }

  // Change totals (`sum(f['additions'] for f in files)`, likewise deletions)

  /** `sum(f['additions'] for f in data['files'])`. */
  function TotalAdditions(files: seq<FileChange>): nat {
    if files == [] then 0 else files[0].additions + TotalAdditions(files[1..])
  }

  /** `sum(f['deletions'] for f in data['files'])`. */
  function TotalDeletions(files: seq<FileChange>): nat {
    if files == [] then 0 else files[0].deletions + TotalDeletions(files[1..])
  }

  lemma {:induction false} TotalsAppend(a: seq<FileChange>, b: seq<FileChange>)
    ensures TotalAdditions(a + b) == TotalAdditions(a) + TotalAdditions(b)
    ensures TotalDeletions(a + b) == TotalDeletions(a) + TotalDeletions(b)
    decreases |a|
  {
    if a == [] {
      assert a + b == b;
    } else {
      assert (a + b)[1..] == a[1..] + b;
      TotalsAppend(a[1..], b);
    }
  }

  /** Each file's additions and deletions are part of the totals. */
  lemma {:induction false} TotalsBoundEachFile(files: seq<FileChange>, i: nat)
    requires i < |files|
    ensures files[i].additions <= TotalAdditions(files)
    ensures files[i].deletions <= TotalDeletions(files)
    decreases |files|
  {
    if i > 0 {
      TotalsBoundEachFile(files[1..], i - 1);
    }
  }

  /** The additions and deletions the counts lines of a block sequence report. */
  function ReportedAdditions(bs: seq<Block>): nat {
    if bs == [] then 0
    else ReportedAdditions(bs[..|bs| - 1]) + (if bs[|bs| - 1].Counts? then bs[|bs| - 1].additions else 0)
  }

  function ReportedDeletions(bs: seq<Block>): nat {
    if bs == [] then 0
    else ReportedDeletions(bs[..|bs| - 1]) + (if bs[|bs| - 1].Counts? then bs[|bs| - 1].deletions else 0)
  }

  lemma SectionReports(f: FileChange)
    ensures ReportedAdditions(FileSection(f)) == f.additions
    ensures ReportedDeletions(FileSection(f)) == f.deletions
  {
    var h, st, c := Heading(f.filename), Status(f.status), Counts(f.additions, f.deletions);
    var d := if HasDiff(f) then [Diff(f.patch.value)] else [];
    assert FileSection(f) == [h] + [st] + [c] + d;
    ReportedAppend([h] + [st] + [c], d);
    ReportedAppend([h] + [st], [c]);
    ReportedAppend([h], [st]);
    assert [h][..0] == [] && [st][..0] == [] && [c][..0] == [];
    assert d != [] ==> d[..0] == [];
  }

  lemma {:induction false} ReportedAppend(a: seq<Block>, b: seq<Block>)
    ensures ReportedAdditions(a + b) == ReportedAdditions(a) + ReportedAdditions(b)
    ensures ReportedDeletions(a + b) == ReportedDeletions(a) + ReportedDeletions(b)
    decreases |b|
  {
    if b == [] {
      assert a + b == a;
    } else {
      var init := b[..|b| - 1];
      assert a + b == (a + init) + [b[|b| - 1]];
      assert (a + b)[..|a + b| - 1] == a + init;
      ReportedAppend(a, init);
    }
  }

  /** The change totals the page shows agree with the per-file counts lines
      of the review document. */
  lemma {:induction false} TotalsMatchDocument(data: PrData)
    ensures ReportedAdditions(Layout(data)) == TotalAdditions(data.files)
    ensures ReportedDeletions(Layout(data)) == TotalDeletions(data.files)
  {
    ReportedAppend([OpeningBlock(data.pr, |data.files|)], FileSections(data.files));
    assert [OpeningBlock(data.pr, |data.files|)][..0] == [];
    ReportedOfSections(data.files);
  }

  lemma {:induction false} ReportedOfSections(files: seq<FileChange>)
    ensures ReportedAdditions(FileSections(files)) == TotalAdditions(files)
    ensures ReportedDeletions(FileSections(files)) == TotalDeletions(files)
    decreases |files|
  {
    if files != [] {
      var init := files[..|files| - 1];
      var f := files[|files| - 1];
      ReportedOfSections(init);
      ReportedAppend(FileSections(init), FileSection(f));
      SectionReports(f);
      assert files == init + [f];
      TotalsAppend(init, [f]);
    }
  }

  // The end-to-end example: one added file with a patch, one removed file

  lemma ExampleTwoFiles()
    ensures var added := FileChange("src/fix.py", "added", 10, 0, Some("+print('fixed')"));
            var removed := FileChange("src/old.py", Removed, 0, 5, None);
            var data := PrData(Metadata("Fix bug", "alice", "open", "2024-01-01", "2024-01-02", None),
                               [added, removed]);
            && Headings(Layout(data)) == ["src/fix.py", "src/old.py"]
            && Diffs(Layout(data)) == ["+print('fixed')"]
            && Layout(data)[0].title == "Fix bug" && Layout(data)[0].author == "alice"
            && Layout(data)[0].description == Placeholder
            && TotalAdditions(data.files) == 10 && TotalDeletions(data.files) == 5
  {
    var added := FileChange("src/fix.py", "added", 10, 0, Some("+print('fixed')"));
    var removed := FileChange("src/old.py", Removed, 0, 5, None);
    var data := PrData(Metadata("Fix bug", "alice", "open", "2024-01-01", "2024-01-02", None),
                       [added, removed]);
    OneHeadingPerFile(data);
    DiffBlocksMatchFiles(data);
    assert HasDiff(added) && !HasDiff(removed);
    assert [added, removed][1..] == [removed];
    assert [removed][1..] == [];
    assert DiffedPatches([removed]) == [];
    assert DiffedPatches(data.files) == [added.patch.value];
    assert TotalAdditions([removed]) == 0 && TotalDeletions([removed]) == 5;
  }
}
