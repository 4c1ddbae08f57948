/**
 * Properties of the converter in lambda/process-pdf-with-textract/lambda_function.py,
 * stated over independent reference definitions: the words of a block, the
 * values of a key, the key and table blocks of a document, and the layout of
 * the emitted Markdown lines.
 */
module TextractProperties {
  import opened Wrappers
  import opened Strings
  import opened TextractSpec

  // ---------------------------------------------------------------------------
  // The fold

  /** Running the steps over `a + b` is running them over `a`, then over `b`. */
  lemma {:induction false} CollectAppend<T, U>(a: seq<T>, b: seq<T>, f: T -> Result<seq<U>, Failure>)
    ensures Collect(a + b, f) == (var x :- Collect(a, f); var y :- Collect(b, f); Ok(x + y))
    decreases |b|
  {
    if b == [] {
      assert a + b == a;
      if Collect(a, f).Ok? {
        assert Collect(a, f).value + [] == Collect(a, f).value;
      }
    } else {
      var init := b[..|b| - 1];
      CollectAppend(a, init, f);
      assert (a + b)[..|a + b| - 1] == a + init;
      assert (a + b)[|a + b| - 1] == b[|b| - 1];
      if Collect(a, f).Ok? && Collect(init, f).Ok? && f(b[|b| - 1]).Ok? {
        ConcatAssoc(Collect(a, f).value, Collect(init, f).value, f(b[|b| - 1]).value);
      }
    }
  }

  // ---------------------------------------------------------------------------
  // get_text_from_relationships

  /** The ids of the CHILD relationships, in order. */
  function ChildIds(rels: seq<Relationship>): seq<string>
    decreases |rels|
  {
    if rels == [] then []
    else
      var last := rels[|rels| - 1];
      ChildIds(rels[..|rels| - 1]) + (if last.relType == "CHILD" then last.ids else [])
  }

  predicate IsWord(id: string, m: BlockMap) {
    id in m && m[id].blockType == "WORD"
  }

  /** Every WORD block among the ids has a `Text`. */
  predicate WordsHaveText(ids: seq<string>, m: BlockMap) {
    forall i :: 0 <= i < |ids| && IsWord(ids[i], m) ==> m[ids[i]].text.Some?
  }

  /** The texts of the WORD blocks among the ids, in order; other ids are skipped. */
  function WordsIn(ids: seq<string>, m: BlockMap): seq<string>
    decreases |ids|
  {
    if ids == [] then []
    else
      var id := ids[|ids| - 1];
      WordsIn(ids[..|ids| - 1], m) + (if IsWord(id, m) && m[id].text.Some? then [m[id].text.value] else [])
  }

  lemma {:induction false} ChildWordsCollect(ids: seq<string>, m: BlockMap)
    ensures Collect(ids, ChildWordStep(m)) ==
      if WordsHaveText(ids, m) then Ok(WordsIn(ids, m)) else Err(KeyError("Text"))
    decreases |ids|
  {
    if ids != [] {
      var init := ids[..|ids| - 1];
      ChildWordsCollect(init, m);
      if WordsHaveText(ids, m) {
        assert WordsHaveText(init, m) by {
          forall i | 0 <= i < |init| && IsWord(init[i], m) ensures m[init[i]].text.Some? {
            assert init[i] == ids[i];
          }
        }
      } else {
        assert forall i :: 0 <= i < |init| ==> ids[i] == init[i];
      }
    }
  }

  lemma {:induction false} WordsFlatten(rels: seq<Relationship>, m: BlockMap)
    ensures Collect(rels, WordsStep(m)) == Collect(ChildIds(rels), ChildWordStep(m))
    decreases |rels|
  {
    if rels != [] {
      var init := rels[..|rels| - 1];
      var last := rels[|rels| - 1];
      WordsFlatten(init, m);
      var more := if last.relType == "CHILD" then last.ids else [];
      CollectAppend(ChildIds(init), more, ChildWordStep(m));
      if Collect(init, WordsStep(m)).Ok? && Collect(more, ChildWordStep(m)).Ok? {
        assert Collect(more, ChildWordStep(m)) == WordsOf(last, m);
      }
    }
  }

  /**
   * `get_text_from_relationships` is the texts of the CHILD-related WORD blocks,
   * in relationship and id order, joined by single spaces and stripped; ids that
   * are not blocks and children that are not WORDs are skipped. A WORD without
   * `Text` raises KeyError('Text').
   */
  lemma WordTextIs(b: Block, m: BlockMap)
    ensures var ids := ChildIds(RelationshipsOrEmpty(b));
      WordText(b, m) ==
        if WordsHaveText(ids, m) then Ok(Strip(Join(" ", WordsIn(ids, m)))) else Err(KeyError("Text"))
  {
    var ids := ChildIds(RelationshipsOrEmpty(b));
    WordsFlatten(RelationshipsOrEmpty(b), m);
    ChildWordsCollect(ids, m);
    StripSpaceTerminated(WordsIn(ids, m));
  }

  /** A block without `Relationships` has the text "". */
  lemma WordTextWithoutRelationships(b: Block, m: BlockMap)
    requires b.relationships.None?
    ensures WordText(b, m) == Ok("")
  {
    WordTextIs(b, m);
    assert Join(" ", []) == "";
  }

  // ---------------------------------------------------------------------------
  // get_value_text

  /** The ids of the VALUE relationships, in order. */
  function ValueIds(rels: seq<Relationship>): seq<string>
    decreases |rels|
  {
    if rels == [] then []
    else
      var last := rels[|rels| - 1];
      ValueIds(rels[..|rels| - 1]) + (if last.relType == "VALUE" then last.ids else [])
  }

  /** Every VALUE id names a block whose own text raises nothing. */
  predicate ValuesResolve(ids: seq<string>, m: BlockMap) {
    forall i :: 0 <= i < |ids| ==> ids[i] in m && WordText(m[ids[i]], m).Ok?
  }

  /** The texts of the value blocks, in order. */
  function ValueTexts(ids: seq<string>, m: BlockMap): seq<string>
    decreases |ids|
  {
    if ids == [] then []
    else
      var id := ids[|ids| - 1];
      ValueTexts(ids[..|ids| - 1], m) +
        [if id in m && WordText(m[id], m).Ok? then WordText(m[id], m).value else ""]
  }

  lemma {:induction false} ValueWordsCollect(ids: seq<string>, m: BlockMap)
    requires ValuesResolve(ids, m)
    ensures Collect(ids, ValueWordStep(m)) == Ok(ValueTexts(ids, m))
    decreases |ids|
  {
    if ids != [] {
      var init := ids[..|ids| - 1];
      assert ValuesResolve(init, m) by {
        forall i | 0 <= i < |init| ensures init[i] in m && WordText(m[init[i]], m).Ok? {
          assert init[i] == ids[i];
        }
      }
      ValueWordsCollect(init, m);
      assert ids[|ids| - 1] in m;
    }
  }

  lemma {:induction false} ValuesFlatten(rels: seq<Relationship>, m: BlockMap)
    ensures Collect(rels, ValuesStep(m)) == Collect(ValueIds(rels), ValueWordStep(m))
    decreases |rels|
  {
    if rels != [] {
      var init := rels[..|rels| - 1];
      var last := rels[|rels| - 1];
      ValuesFlatten(init, m);
      var more := if last.relType == "VALUE" then last.ids else [];
      CollectAppend(ValueIds(init), more, ValueWordStep(m));
      if Collect(init, ValuesStep(m)).Ok? && Collect(more, ValueWordStep(m)).Ok? {
        assert Collect(more, ValueWordStep(m)) == ValuesOf(last, m);
      }
    }
  }

  /**
   * `get_value_text` is the texts of the VALUE-related blocks, in order,
   * joined by single spaces and stripped.
   */
  lemma ValueTextIs(kb: Block, m: BlockMap)
    requires ValuesResolve(ValueIds(RelationshipsOrEmpty(kb)), m)
    ensures ValueText(kb, m) == Ok(Strip(Join(" ", ValueTexts(ValueIds(RelationshipsOrEmpty(kb)), m))))
  {
    var ids := ValueIds(RelationshipsOrEmpty(kb));
    ValuesFlatten(RelationshipsOrEmpty(kb), m);
    ValueWordsCollect(ids, m);
    StripSpaceTerminated(ValueTexts(ids, m));
  }

  /** A VALUE id that is not a block makes `block_map.get` return None, and `None.get` raises. */
  lemma ValueTextMissingId(kb: Block, m: BlockMap, k: nat)
    requires var ids := ValueIds(RelationshipsOrEmpty(kb));
      k < |ids| && ids[k] !in m && ValuesResolve(ids[..k], m)
    ensures ValueText(kb, m) == Err(NoneHasNoGet)
  {
    var ids := ValueIds(RelationshipsOrEmpty(kb));
    ValuesFlatten(RelationshipsOrEmpty(kb), m);
    ValueWordsCollect(ids[..k], m);
    CollectErrAt(ids, k, ValueWordStep(m));
  }

  /** A VALUE block whose own words raise makes `get_value_text` raise the same exception. */
  lemma ValueTextWordError(kb: Block, m: BlockMap, k: nat)
    requires var ids := ValueIds(RelationshipsOrEmpty(kb));
      k < |ids| && ids[k] in m && WordText(m[ids[k]], m).Err? && ValuesResolve(ids[..k], m)
    ensures ValueText(kb, m) == Err(WordText(m[ValueIds(RelationshipsOrEmpty(kb))[k]], m).error)
  {
    var ids := ValueIds(RelationshipsOrEmpty(kb));
    ValuesFlatten(RelationshipsOrEmpty(kb), m);
    ValueWordsCollect(ids[..k], m);
    CollectErrAt(ids, k, ValueWordStep(m));
  }

  // ---------------------------------------------------------------------------
  // block_map and the block filters

  /** A block is in `block_map` under its id unless a later block has the same id. */
  lemma {:induction false} BlockMapLaterWins(blocks: seq<Block>, j: nat)
    requires j < |blocks|
    requires forall k :: j < k < |blocks| ==> blocks[k].id != blocks[j].id
    ensures blocks[j].id in BlockMapOf(blocks) && BlockMapOf(blocks)[blocks[j].id] == blocks[j]
    decreases |blocks|
  {
    if j < |blocks| - 1 {
      var init := blocks[..|blocks| - 1];
      assert init[j] == blocks[j];
      BlockMapLaterWins(init, j);
    }
  }

  /** The ids of `block_map` are exactly the blocks' ids. */
  lemma {:induction false} BlockMapDomain(blocks: seq<Block>, id: string)
    ensures id in BlockMapOf(blocks) <==> exists k :: 0 <= k < |blocks| && blocks[k].id == id
    decreases |blocks|
  {
    if blocks != [] {
      var init := blocks[..|blocks| - 1];
      BlockMapDomain(init, id);
      if exists k :: 0 <= k < |init| && init[k].id == id {
        var k :| 0 <= k < |init| && init[k].id == id;
        assert blocks[k] == init[k];
      }
      if exists k :: 0 <= k < |blocks| && blocks[k].id == id {
        var k :| 0 <= k < |blocks| && blocks[k].id == id;
        if k < |init| {
          assert init[k] == blocks[k];
        }
      }
    }
  }

  predicate IsKeyBlock(b: Block) {
    b.blockType == "KEY_VALUE_SET" && b.entityTypes.Some? && "KEY" in b.entityTypes.value
  }

  /** `b['EntityTypes']` exists for every KEY_VALUE_SET block. */
  predicate EntityTypesPresent(blocks: seq<Block>) {
    forall i :: 0 <= i < |blocks| && blocks[i].blockType == "KEY_VALUE_SET" ==> blocks[i].entityTypes.Some?
  }

  /** The key blocks, in document order. */
  function KeysIn(blocks: seq<Block>): seq<Block>
    decreases |blocks|
  {
    if blocks == [] then []
    else
      var last := blocks[|blocks| - 1];
      KeysIn(blocks[..|blocks| - 1]) + (if IsKeyBlock(last) then [last] else [])
  }

  lemma {:induction false} KeyBlocksIs(blocks: seq<Block>)
    ensures KeyBlocks(blocks) ==
      if EntityTypesPresent(blocks) then Ok(KeysIn(blocks)) else Err(KeyError("EntityTypes"))
    decreases |blocks|
  {
    if blocks != [] {
      var init := blocks[..|blocks| - 1];
      KeyBlocksIs(init);
      assert KeyBlocks(init) == Collect(init, KeyFilterStep());
      if EntityTypesPresent(blocks) {
        assert EntityTypesPresent(init) by {
          forall i | 0 <= i < |init| && init[i].blockType == "KEY_VALUE_SET" ensures init[i].entityTypes.Some? {
            assert init[i] == blocks[i];
          }
        }
      } else {
        assert forall i :: 0 <= i < |init| ==> blocks[i] == init[i];
      }
    }
  }

  lemma {:induction false} KeysInNonEmpty(blocks: seq<Block>)
    ensures KeysIn(blocks) != [] <==> exists i :: 0 <= i < |blocks| && IsKeyBlock(blocks[i])
    decreases |blocks|
  {
    if blocks != [] {
      var init := blocks[..|blocks| - 1];
      KeysInNonEmpty(init);
      if exists i :: 0 <= i < |init| && IsKeyBlock(init[i]) {
        var i :| 0 <= i < |init| && IsKeyBlock(init[i]);
        assert blocks[i] == init[i];
      }
      if exists i :: 0 <= i < |blocks| && IsKeyBlock(blocks[i]) {
        var i :| 0 <= i < |blocks| && IsKeyBlock(blocks[i]);
        if i < |init| {
          assert init[i] == blocks[i];
        }
      }
    }
  }

  lemma {:induction false} TableBlocksNonEmpty(blocks: seq<Block>)
    ensures TableBlocks(blocks) != [] <==> exists i :: 0 <= i < |blocks| && blocks[i].blockType == "TABLE"
    decreases |blocks|
  {
    if blocks != [] {
      var init := blocks[..|blocks| - 1];
      TableBlocksNonEmpty(init);
      if exists i :: 0 <= i < |init| && init[i].blockType == "TABLE" {
        var i :| 0 <= i < |init| && init[i].blockType == "TABLE";
        assert blocks[i] == init[i];
      }
      if exists i :: 0 <= i < |blocks| && blocks[i].blockType == "TABLE" {
        var i :| 0 <= i < |blocks| && blocks[i].blockType == "TABLE";
        if i < |init| {
          assert init[i] == blocks[i];
        }
      }
    }
  }

  // ---------------------------------------------------------------------------
  // The form section

  /** The line of one key block: its own text, then its value text. */
  predicate FormLineOf(kb: Block, m: BlockMap, l: string) {
    WordText(kb, m).Ok? && ValueText(kb, m).Ok? && l == FormLine(WordText(kb, m).value, ValueText(kb, m).value)
  }

  lemma KeyLineOk(kb: Block, m: BlockMap, l: string)
    requires KeyLine(kb, m) == Ok([l])
    ensures FormLineOf(kb, m, l)
  {
  }

  lemma KeyLinesAt(kbs: seq<Block>, m: BlockMap, ls: seq<string>)
    requires Collect(kbs, KeyLineStep(m)) == Ok(ls)
    ensures |ls| == |kbs|
    ensures forall i :: 0 <= i < |kbs| ==> FormLineOf(kbs[i], m, ls[i])
  {
    var f := KeyLineStep(m);
    assert forall kb :: f(kb).Ok? ==> |f(kb).value| == 1;
    CollectSingles(kbs, f, ls);
    forall i | 0 <= i < |kbs| ensures FormLineOf(kbs[i], m, ls[i]) {
      KeyLineOk(kbs[i], m, ls[i]);
    }
  }

  /** Collecting with a step that yields one item at a time yields one item per element, in order. */
  lemma {:induction false} CollectSingles<T, U>(s: seq<T>, f: T -> Result<seq<U>, Failure>, out: seq<U>)
    requires forall x :: f(x).Ok? ==> |f(x).value| == 1
    requires Collect(s, f) == Ok(out)
    ensures |out| == |s|
    ensures forall i :: 0 <= i < |s| ==> f(s[i]) == Ok([out[i]])
    decreases |s|
  {
    if s != [] {
      var init := s[..|s| - 1];
      var done := Collect(init, f).value;
      var last := f(s[|s| - 1]).value;
      CollectSingles(init, f, done);
      assert out == done + last;
      forall i | 0 <= i < |s| ensures f(s[i]) == Ok([out[i]]) {
        if i < |init| {
          assert s[i] == init[i] && out[i] == done[i];
        } else {
          assert last == [out[i]];
        }
      }
    }
  }

  /**
   * The form section is "## Form Data\n", one `- **key:** value` line per key
   * block in order (the key's own text, then its value text), and a blank line.
   */
  lemma FormLinesLayout(kbs: seq<Block>, m: BlockMap, form: seq<string>)
    requires kbs != [] && FormLines(kbs, m) == Ok(form)
    ensures |form| == |kbs| + 2
    ensures form[0] == FormHeading && form[|form| - 1] == SectionEnd
    ensures forall i :: 0 <= i < |kbs| ==> FormLineOf(kbs[i], m, form[i + 1])
  {
    var ls := Collect(kbs, KeyLineStep(m)).value;
    KeyLinesAt(kbs, m, ls);
    FramedLines(kbs, m, ls, form);
  }

  lemma FramedLines(kbs: seq<Block>, m: BlockMap, ls: seq<string>, form: seq<string>)
    requires form == [FormHeading] + ls + [SectionEnd]
    requires |ls| == |kbs| && forall i :: 0 <= i < |kbs| ==> FormLineOf(kbs[i], m, ls[i])
    ensures |form| == |kbs| + 2
    ensures form[0] == FormHeading && form[|form| - 1] == SectionEnd
    ensures forall i :: 0 <= i < |kbs| ==> FormLineOf(kbs[i], m, form[i + 1])
  {
    FrameIndices(FormHeading, ls, SectionEnd, form);
  }

  /** Where the lines of `[head] + ls + [end]` sit. */
  lemma FrameIndices(head: string, ls: seq<string>, end: string, form: seq<string>)
    requires form == [head] + ls + [end]
    ensures |form| == |ls| + 2 && form[0] == head && form[|form| - 1] == end
    ensures forall i :: 0 <= i < |ls| ==> form[i + 1] == ls[i]
  {
  }

  // ---------------------------------------------------------------------------
  // The tables section

  /** A line that opens with "### ". */
  predicate IsHeading(l: string) {
    StartsWith(l, "### ")
  }

  /** The heading lines of `ls`, in order. */
  function Headings(ls: seq<string>): seq<string>
    decreases |ls|
  {
    if ls == [] then []
    else Headings(ls[..|ls| - 1]) + (if IsHeading(ls[|ls| - 1]) then [ls[|ls| - 1]] else [])
  }

  /** `### Table 1`, ..., `### Table n`. */
  function Numbered(n: nat): seq<string>
    decreases n
  {
    if n == 0 then [] else Numbered(n - 1) + [TableHeading(n)]
  }

  lemma {:induction false} HeadingsAppend(a: seq<string>, b: seq<string>)
    ensures Headings(a + b) == Headings(a) + Headings(b)
    decreases |b|
  {
    if b == [] {
      assert a + b == a;
    } else {
      var init := b[..|b| - 1];
      HeadingsAppend(a, init);
      assert (a + b)[..|a + b| - 1] == a + init;
      assert (a + b)[|a + b| - 1] == b[|b| - 1];
    }
  }

  lemma {:induction false} HeadingsNone(ls: seq<string>)
    requires forall k :: 0 <= k < |ls| ==> !IsHeading(ls[k])
    ensures Headings(ls) == []
    decreases |ls|
  {
    if ls != [] {
      HeadingsNone(ls[..|ls| - 1]);
    }
  }

  lemma RowLineShape(cells: seq<string>)
    ensures StartsWith(RowLine(cells), "| ") && !IsHeading(RowLine(cells))
  {
    assert RowLine(cells)[0] == '|';
  }

  lemma TableHeadingShape(n: nat)
    ensures IsHeading(TableHeading(n)) && StartsWith(TableHeading(n), "### Table ")
  {
    assert TableHeading(n)[..10] == "### Table ";
  }

  /**
   * The lines after a table's heading: the header row, a separator of as many
   * `---` cells as the header has, each further row in order, a blank line.
   */
  lemma GridLinesLayout(g: Grid)
    requires g != []
    ensures |GridLines(g)| == |g| + 2
    ensures GridLines(g)[0] == RowLine(g[0])
    ensures GridLines(g)[1] == RowLine(Repeat("---", |g[0]|)) && |Repeat("---", |g[0]|)| == |g[0]|
    ensures forall k :: 1 <= k < |g| ==> GridLines(g)[k + 1] == RowLine(g[k])
    ensures GridLines(g)[|g| + 1] == SectionEnd
  {
    var ls := GridLines(g);
    forall k | 1 <= k < |g| ensures ls[k + 1] == RowLine(g[k]) {
      assert ls[k + 1] == RowLines(g[1..])[k - 1];
      assert g[1..][k - 1] == g[k];
    }
  }

  /** A table section holds its heading and no other heading. */
  lemma SectionHeadings(n: nat, g: Grid)
    ensures SectionOf(n, g)[0] == TableHeading(n)
    ensures Headings(SectionOf(n, g)) == [TableHeading(n)]
  {
    var rest := if g == [] || g[0] == [] then [] else GridLines(g);
    assert SectionOf(n, g) == [TableHeading(n)] + rest;
    if rest != [] {
      GridLinesLayout(g);
      forall k | 0 <= k < |rest| ensures !IsHeading(rest[k]) {
        if k == 0 {
          RowLineShape(g[0]);
        } else if k == 1 {
          RowLineShape(Repeat("---", |g[0]|));
        } else if k <= |g| {
          RowLineShape(g[k - 1]);
        } else {
          assert rest[k] == SectionEnd;
        }
      }
    }
    HeadingsNone(rest);
    TableHeadingShape(n);
    HeadingsAppend([TableHeading(n)], rest);
    assert [TableHeading(n)] == [] + [TableHeading(n)];
    assert Headings([TableHeading(n)]) == Headings([]) + [TableHeading(n)];
  }

  /** The sections are numbered 1, 2, ... in document order, one heading per table block. */
  lemma {:induction false} SectionsHeadings(gs: seq<Result<Grid, Failure>>, ls: seq<string>)
    requires Sections(gs) == Ok(ls)
    ensures Headings(ls) == Numbered(|gs|)
    decreases |gs|
  {
    if gs != [] {
      var init := gs[..|gs| - 1];
      SectionsLast(gs, ls);
      var done := Sections(init).value;
      var g := gs[|gs| - 1].value;
      SectionsHeadings(init, done);
      SectionHeadings(|gs|, g);
      NumberedNext(done, SectionOf(|gs|, g), |gs|);
    }
  }

  /** A successful `Sections` is the sections of all but the last grid, then the last one's. */
  lemma SectionsLast(gs: seq<Result<Grid, Failure>>, ls: seq<string>)
    requires gs != [] && Sections(gs) == Ok(ls)
    ensures Sections(gs[..|gs| - 1]).Ok? && gs[|gs| - 1].Ok?
    ensures ls == Sections(gs[..|gs| - 1]).value + SectionOf(|gs|, gs[|gs| - 1].value)
  {
  }

  lemma NumberedNext(done: seq<string>, section: seq<string>, n: nat)
    requires n > 0 && Headings(done) == Numbered(n - 1)
    requires Headings(section) == [TableHeading(n)]
    ensures Headings(done + section) == Numbered(n)
  {
    HeadingsAppend(done, section);
  }

  /** Lines the tables section can hold. */
  predicate TableLine(l: string) {
    l == SectionEnd || StartsWith(l, "| ") || StartsWith(l, "### Table ")
  }

  lemma SectionLines(n: nat, g: Grid)
    ensures forall k :: 0 <= k < |SectionOf(n, g)| ==> TableLine(SectionOf(n, g)[k])
  {
    var s := SectionOf(n, g);
    TableHeadingShape(n);
    if !(g == [] || g[0] == []) {
      GridLinesLayout(g);
      forall k | 1 <= k < |s| ensures TableLine(s[k]) {
        if k == 1 {
          RowLineShape(g[0]);
        } else if k == 2 {
          RowLineShape(Repeat("---", |g[0]|));
        } else if k <= |g| + 1 {
          RowLineShape(g[k - 2]);
        }
      }
    }
  }

  lemma {:induction false} SectionsLines(gs: seq<Result<Grid, Failure>>, ls: seq<string>)
    requires Sections(gs) == Ok(ls)
    ensures forall k :: 0 <= k < |ls| ==> TableLine(ls[k])
    decreases |gs|
  {
    if gs != [] {
      var init := gs[..|gs| - 1];
      var done := Sections(init).value;
      var g := gs[|gs| - 1].value;
      SectionsLines(init, done);
      SectionLines(|gs|, g);
      assert ls == done + SectionOf(|gs|, g);
      forall k | 0 <= k < |ls| ensures TableLine(ls[k]) {
        if k >= |done| {
          assert ls[k] == SectionOf(|gs|, g)[k - |done|];
        }
      }
    }
  }

  // ---------------------------------------------------------------------------
  // The whole document

  lemma FormLineShape(k: string, v: string)
    ensures FormLine(k, v)[0] == '-'
  {
  }

  /** Every line of the form section. */
  lemma FormSectionLines(kbs: seq<Block>, m: BlockMap, form: seq<string>)
    requires FormLines(kbs, m) == Ok(form)
    ensures forall k :: 0 <= k < |form| ==>
      form[k] == FormHeading || form[k] == SectionEnd || (|form[k]| > 0 && form[k][0] == '-')
  {
    if kbs != [] {
      FormLinesLayout(kbs, m, form);
      forall k | 0 <= k < |form|
        ensures form[k] == FormHeading || form[k] == SectionEnd || (|form[k]| > 0 && form[k][0] == '-')
      {
        if 0 < k < |form| - 1 {
          assert FormLineOf(kbs[k - 1], m, form[k]);
          FormLineShape(WordText(kbs[k - 1], m).value, ValueText(kbs[k - 1], m).value);
        }
      }
    }
  }

  predicate FormShaped(form: seq<string>) {
    forall k :: 0 <= k < |form| ==>
      form[k] == FormHeading || form[k] == SectionEnd || (|form[k]| > 0 && form[k][0] == '-')
  }

  /** The tables part of a document with `n` TABLE blocks. */
  predicate TablesShaped(tables: seq<string>, n: nat) {
    if n == 0 then tables == []
    else (tables != [] && tables[0] == TablesHeading &&
          (forall k :: 1 <= k < |tables| ==> TableLine(tables[k])) &&
          Headings(tables) == Numbered(n))
  }

  lemma FormLineKind(l: string)
    requires l == FormHeading || l == SectionEnd || (|l| > 0 && l[0] == '-')
    ensures l != TablesHeading && !IsHeading(l)
  {
    if l == FormHeading {
      assert l[..4][2] == ' ';
    } else if l != SectionEnd && |l| >= 4 {
      assert l[..4][0] == '-';
    }
  }

  lemma TitleKind()
    ensures !IsHeading(Title) && !IsHeading(TablesHeading)
  {
    assert Title[..4][1] == ' ';
    assert TablesHeading[..4][2] == ' ';
  }

  lemma TableLineKind(l: string)
    requires TableLine(l)
    ensures l != FormHeading && l != TablesHeading
  {
    assert FormHeading[0] == '#' && FormHeading[2] == ' ';
    assert TablesHeading[0] == '#' && TablesHeading[2] == ' ';
    if StartsWith(l, "| ") {
      assert l[..2][0] == '|';
    } else if StartsWith(l, "### Table ") {
      assert l[..10][2] == '#';
    }
  }

  lemma TablesPrefixed(ls: seq<string>, n: nat)
    requires n > 0
    requires forall k :: 0 <= k < |ls| ==> TableLine(ls[k])
    requires Headings(ls) == Numbered(n)
    ensures TablesShaped([TablesHeading] + ls, n)
  {
    var tables := [TablesHeading] + ls;
    ShiftedLines(ls, tables);
    TitleKind();
    HeadingsCons(TablesHeading, ls);
    assert tables != [] && tables[0] == TablesHeading;
  }

  lemma ShiftedLines(ls: seq<string>, tables: seq<string>)
    requires tables == [TablesHeading] + ls
    requires forall k :: 0 <= k < |ls| ==> TableLine(ls[k])
    ensures forall k :: 1 <= k < |tables| ==> TableLine(tables[k])
  {
    forall k | 1 <= k < |tables| ensures TableLine(tables[k]) {
      assert tables[k] == ls[k - 1];
    }
  }

  /** A line that is not a heading adds no heading in front. */
  lemma HeadingsCons(h: string, ls: seq<string>)
    requires !IsHeading(h)
    ensures Headings([h] + ls) == Headings(ls)
  {
    HeadingsAppend([h], ls);
    HeadingsNone([h]);
  }

  /** The document's lines, in its three parts. */
  lemma DocumentParts(blocks: seq<Block>, lines: seq<string>)
    requires MarkdownLines(blocks) == Ok(lines)
    ensures KeyBlocks(blocks) == Ok(KeysIn(blocks))
    ensures FormLines(KeysIn(blocks), BlockMapOf(blocks)).Ok?
    ensures TableLines(TableBlocks(blocks), BlockMapOf(blocks)).Ok?
    ensures lines == [Title] + FormLines(KeysIn(blocks), BlockMapOf(blocks)).value +
      TableLines(TableBlocks(blocks), BlockMapOf(blocks)).value
  {
    KeyBlocksIs(blocks);
  }

  lemma FormShapedLines(kbs: seq<Block>, m: BlockMap, form: seq<string>)
    requires FormLines(kbs, m) == Ok(form)
    ensures FormShaped(form)
    ensures form != [] <==> kbs != []
    ensures form != [] ==> form[0] == FormHeading
  {
    FormSectionLines(kbs, m, form);
  }

  /** The tables part: nothing, or "## Tables\n" and then table lines only. */
  lemma TablesShapedLines(tbs: seq<Block>, m: BlockMap, tables: seq<string>)
    requires TableLines(tbs, m) == Ok(tables)
    ensures TablesShaped(tables, |tbs|)
  {
    if tbs != [] {
      var ls := Sections(Grids(tbs, m)).value;
      assert tables == [TablesHeading] + ls;
      SectionsLines(Grids(tbs, m), ls);
      SectionsHeadings(Grids(tbs, m), ls);
      TablesPrefixed(ls, |tbs|);
    }
  }

  lemma FormHeadingIn(form: seq<string>, tables: seq<string>, n: nat, lines: seq<string>)
    requires FormShaped(form) && (form != [] ==> form[0] == FormHeading)
    requires TablesShaped(tables, n)
    requires lines == [Title] + form + tables
    ensures FormHeading in lines <==> form != []
  {
    if form != [] {
      assert lines[1] == FormHeading;
    } else {
      forall k | 0 <= k < |lines| ensures lines[k] != FormHeading {
        if 1 < k {
          assert lines[k] == tables[k - 1];
          TableLineKind(tables[k - 1]);
        }
      }
    }
  }

  lemma TablesHeadingIn(form: seq<string>, tables: seq<string>, n: nat, lines: seq<string>)
    requires FormShaped(form)
    requires TablesShaped(tables, n)
    requires lines == [Title] + form + tables
    ensures TablesHeading in lines <==> n > 0
  {
    if n > 0 {
      assert lines[1 + |form|] == TablesHeading;
    } else {
      forall k | 0 <= k < |lines| ensures lines[k] != TablesHeading {
        if 0 < k {
          assert lines[k] == form[k - 1];
          FormLineKind(form[k - 1]);
        }
      }
    }
  }

  lemma HeadingsIn(form: seq<string>, tables: seq<string>, n: nat, lines: seq<string>)
    requires FormShaped(form)
    requires TablesShaped(tables, n)
    requires lines == [Title] + form + tables
    ensures Headings(lines) == Numbered(n)
  {
    var front := [Title] + form;
    TitleKind();
    forall k | 0 <= k < |front| ensures !IsHeading(front[k]) {
      if k > 0 {
        assert front[k] == form[k - 1];
        FormLineKind(form[k - 1]);
      }
    }
    HeadingsNone(front);
    HeadingsAppend(front, tables);
  }

  /** "## Form Data\n" is a line of the document exactly when there is a key block. */
  lemma FormHeadingPresent(blocks: seq<Block>, lines: seq<string>)
    requires MarkdownLines(blocks) == Ok(lines)
    ensures FormHeading in lines <==> exists i :: 0 <= i < |blocks| && IsKeyBlock(blocks[i])
  {
    DocumentParts(blocks, lines);
    var m := BlockMapOf(blocks);
    var form := FormLines(KeysIn(blocks), m).value;
    var tables := TableLines(TableBlocks(blocks), m).value;
    KeysInNonEmpty(blocks);
    FormShapedLines(KeysIn(blocks), m, form);
    TablesShapedLines(TableBlocks(blocks), m, tables);
    FormHeadingIn(form, tables, |TableBlocks(blocks)|, lines);
  }

  /** "## Tables\n" is a line of the document exactly when there is a TABLE block. */
  lemma TablesHeadingPresent(blocks: seq<Block>, lines: seq<string>)
    requires MarkdownLines(blocks) == Ok(lines)
    ensures TablesHeading in lines <==> exists i :: 0 <= i < |blocks| && blocks[i].blockType == "TABLE"
  {
    DocumentParts(blocks, lines);
    var m := BlockMapOf(blocks);
    var form := FormLines(KeysIn(blocks), m).value;
    var tables := TableLines(TableBlocks(blocks), m).value;
    TableBlocksNonEmpty(blocks);
    FormShapedLines(KeysIn(blocks), m, form);
    TablesShapedLines(TableBlocks(blocks), m, tables);
    TablesHeadingIn(form, tables, |TableBlocks(blocks)|, lines);
  }

  /** The `### ` lines of the document are `### Table 1`, ..., one per TABLE block in order. */
  lemma DocumentHeadings(blocks: seq<Block>, lines: seq<string>)
    requires MarkdownLines(blocks) == Ok(lines)
    ensures lines[0] == Title
    ensures Headings(lines) == Numbered(|TableBlocks(blocks)|)
  {
    DocumentParts(blocks, lines);
    var m := BlockMapOf(blocks);
    var form := FormLines(KeysIn(blocks), m).value;
    var tables := TableLines(TableBlocks(blocks), m).value;
    FormShapedLines(KeysIn(blocks), m, form);
    TablesShapedLines(TableBlocks(blocks), m, tables);
    HeadingsIn(form, tables, |TableBlocks(blocks)|, lines);
  }

  /** The converted document opens with "# Document Analysis\n". */
  lemma MarkdownStartsWithTitle(blocks: seq<Block>)
    requires Markdown(blocks).Ok?
    ensures StartsWith(Markdown(blocks).value, Title)
  {
    var lines := MarkdownLines(blocks).value;
    DocumentHeadings(blocks, lines);
    JoinStartsWithFirst("\n", lines);
  }
}
