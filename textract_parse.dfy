/**
 * The converter of lambda/process-pdf-with-textract/lambda_function.py as
 * the Python code runs it: loops that append to strings and lists, a dict of
 * rows filled cell by cell and a pre-sized grid written in place. Each method
 * is proved to compute its function in TextractSpec; a raised exception is an
 * early `return Err(...)`.
 */
module TextractParse {
  import opened Wrappers
  import opened Strings
  import opened TextractSpec

  /**
   * The inner loop of `get_text_from_relationships`: each WORD child of one CHILD
   * relationship appends its text and a space to `text`.
   */
  method AppendChildWords(text: string, ghost words: seq<string>, ids: seq<string>, m: BlockMap)
    returns (r: Result<string, Failure>)
    requires text == SpaceTerminated(words)
    ensures Collect(ids, ChildWordStep(m)).Ok? ==> r == Ok(SpaceTerminated(words + Collect(ids, ChildWordStep(m)).value))
    ensures Collect(ids, ChildWordStep(m)).Err? ==> r == Err(Collect(ids, ChildWordStep(m)).error)
  {
    var out := text;
    ghost var found: seq<string> := [];
    assert words + found == words;
    var j := 0;
    while j < |ids|
      invariant 0 <= j <= |ids|
      invariant Collect(ids[..j], ChildWordStep(m)) == Ok(found)
      invariant out == SpaceTerminated(words + found)
    {
      var id := ids[j];
      if id in m && m[id].blockType == "WORD" {
        if m[id].text.None? {
          CollectErrAt(ids, j, ChildWordStep(m));
          return Err(KeyError("Text"));
        }
        var w := m[id].text.value;
        CollectOkStep(ids, j, ChildWordStep(m), found, [w]);
        SpaceTerminatedExtend(words, found, w);
        out := out + (w + " ");
        found := found + [w];
      } else {
        CollectOkStep(ids, j, ChildWordStep(m), found, []);
        assert found + [] == found;
      }
      j := j + 1;
    }
    assert ids[..j] == ids;
    return Ok(out);
  }

  /** One relationship of `get_text_from_relationships`: a CHILD relationship appends its words, any other nothing. */
  method AppendChildRelationship(text: string, ghost words: seq<string>, rel: Relationship, m: BlockMap)
    returns (r: Result<string, Failure>)
    requires text == SpaceTerminated(words)
    ensures WordsOf(rel, m).Ok? ==> r == Ok(SpaceTerminated(words + WordsOf(rel, m).value))
    ensures WordsOf(rel, m).Err? ==> r == Err(WordsOf(rel, m).error)
  {
    if rel.relType == "CHILD" {
      r := AppendChildWords(text, words, rel.ids, m);
    } else {
      assert words + [] == words;
      r := Ok(text);
    }
  }

  /** The outer loop of `get_text_from_relationships`: the words of every CHILD relationship, space-terminated. */
  method AppendChildRelationships(rels: seq<Relationship>, m: BlockMap) returns (r: Result<string, Failure>)
    ensures Collect(rels, WordsStep(m)).Ok? ==> r == Ok(SpaceTerminated(Collect(rels, WordsStep(m)).value))
    ensures Collect(rels, WordsStep(m)).Err? ==> r == Err(Collect(rels, WordsStep(m)).error)
  {
    var text := "";
    ghost var words: seq<string> := [];
    var i := 0;
    while i < |rels|
      invariant 0 <= i <= |rels|
      invariant Collect(rels[..i], WordsStep(m)) == Ok(words)
      invariant text == SpaceTerminated(words)
    {
      var t := AppendChildRelationship(text, words, rels[i], m);
      if t.Err? {
        CollectErrAt(rels, i, WordsStep(m));
        return Err(t.error);
      }
      ghost var found := WordsOf(rels[i], m).value;
      CollectOkStep(rels, i, WordsStep(m), words, found);
      text := t.value;
      words := words + found;
      i := i + 1;
    }
    assert rels[..i] == rels;
    return Ok(text);
  }

  /** `get_text_from_relationships(block, block_map)` */
  method GetTextFromRelationships(b: Block, m: BlockMap) returns (r: Result<string, Failure>)
    ensures r == WordText(b, m)
  {
    var text :- AppendChildRelationships(RelationshipsOrEmpty(b), m);
    return Ok(Strip(text));
  }

  /** The inner loop of `get_value_text`: each VALUE id appends its words and a space. */
  method AppendValueWords(text: string, ghost texts: seq<string>, ids: seq<string>, m: BlockMap)
    returns (r: Result<string, Failure>)
    requires text == SpaceTerminated(texts)
    ensures Collect(ids, ValueWordStep(m)).Ok? ==> r == Ok(SpaceTerminated(texts + Collect(ids, ValueWordStep(m)).value))
    ensures Collect(ids, ValueWordStep(m)).Err? ==> r == Err(Collect(ids, ValueWordStep(m)).error)
  {
    var out := text;
    ghost var found: seq<string> := [];
    assert texts + found == texts;
    var j := 0;
    while j < |ids|
      invariant 0 <= j <= |ids|
      invariant Collect(ids[..j], ValueWordStep(m)) == Ok(found)
      invariant out == SpaceTerminated(texts + found)
    {
      var id := ids[j];
      if id !in m {
        CollectErrAt(ids, j, ValueWordStep(m));
        return Err(NoneHasNoGet);
      }
      var t := GetTextFromRelationships(m[id], m);
      if t.Err? {
        CollectErrAt(ids, j, ValueWordStep(m));
        return Err(t.error);
      }
      CollectOkStep(ids, j, ValueWordStep(m), found, [t.value]);
      SpaceTerminatedExtend(texts, found, t.value);
      out := out + (t.value + " ");
      found := found + [t.value];
      j := j + 1;
    }
    assert ids[..j] == ids;
    return Ok(out);
  }

  /** One relationship of `get_value_text`: a VALUE relationship appends its values' words, any other nothing. */
  method AppendValueRelationship(text: string, ghost texts: seq<string>, rel: Relationship, m: BlockMap)
    returns (r: Result<string, Failure>)
    requires text == SpaceTerminated(texts)
    ensures ValuesOf(rel, m).Ok? ==> r == Ok(SpaceTerminated(texts + ValuesOf(rel, m).value))
    ensures ValuesOf(rel, m).Err? ==> r == Err(ValuesOf(rel, m).error)
  {
    if rel.relType == "VALUE" {
      r := AppendValueWords(text, texts, rel.ids, m);
    } else {
      assert texts + [] == texts;
      r := Ok(text);
    }
  }

  /** The outer loop of `get_value_text`: the words of every VALUE relationship, space-terminated. */
  method AppendValueRelationships(rels: seq<Relationship>, m: BlockMap) returns (r: Result<string, Failure>)
    ensures Collect(rels, ValuesStep(m)).Ok? ==> r == Ok(SpaceTerminated(Collect(rels, ValuesStep(m)).value))
    ensures Collect(rels, ValuesStep(m)).Err? ==> r == Err(Collect(rels, ValuesStep(m)).error)
  {
    var valueText := "";
    ghost var texts: seq<string> := [];
    var i := 0;
    while i < |rels|
      invariant 0 <= i <= |rels|
      invariant Collect(rels[..i], ValuesStep(m)) == Ok(texts)
      invariant valueText == SpaceTerminated(texts)
    {
      var t := AppendValueRelationship(valueText, texts, rels[i], m);
      if t.Err? {
        CollectErrAt(rels, i, ValuesStep(m));
        return Err(t.error);
      }
      ghost var found := ValuesOf(rels[i], m).value;
      CollectOkStep(rels, i, ValuesStep(m), texts, found);
      valueText := t.value;
      texts := texts + found;
      i := i + 1;
    }
    assert rels[..i] == rels;
    return Ok(valueText);
  }

  /** `get_value_text(key_block, block_map)` */
  method GetValueText(kb: Block, m: BlockMap) returns (r: Result<string, Failure>)
    ensures r == ValueText(kb, m)
  {
    var valueText :- AppendValueRelationships(RelationshipsOrEmpty(kb), m);
    return Ok(Strip(valueText));
  }

  /** The inner loop of the first loop of `reconstruct_table`: the cells of one CHILD relationship. */
  method PutChildCells(rows: Rows, ghost es: seq<CellEntry>, ids: seq<string>, m: BlockMap)
    returns (r: Result<Rows, Failure>)
    requires rows == RowsOf(es)
    ensures Collect(ids, CellStep(m)).Ok? ==> r == Ok(RowsOf(es + Collect(ids, CellStep(m)).value))
    ensures Collect(ids, CellStep(m)).Err? ==> r == Err(Collect(ids, CellStep(m)).error)
  {
    var out := rows;
    ghost var found: seq<CellEntry> := [];
    assert es + found == es;
    var j := 0;
    while j < |ids|
      invariant 0 <= j <= |ids|
      invariant Collect(ids[..j], CellStep(m)) == Ok(found)
      invariant out == RowsOf(es + found)
    {
      var id := ids[j];
      if id in m {
        var cell := m[id];
        if cell.rowIndex.None? || cell.columnIndex.None? {
          CollectErrAt(ids, j, CellStep(m));
          return Err(KeyError(if cell.rowIndex.None? then "RowIndex" else "ColumnIndex"));
        }
        var text := GetTextFromRelationships(cell, m);
        if text.Err? {
          CollectErrAt(ids, j, CellStep(m));
          return Err(text.error);
        }
        var e := CellEntry(cell.rowIndex.value, cell.columnIndex.value, text.value);
        CollectOkStep(ids, j, CellStep(m), found, [e]);
        RowsOfExtend(es, found, e);
        out := PutCell(out, e);
        found := found + [e];
      } else {
        CollectOkStep(ids, j, CellStep(m), found, []);
        assert found + [] == found;
      }
      j := j + 1;
    }
    assert ids[..j] == ids;
    return Ok(out);
  }

  /** The first loop of `reconstruct_table`: the dict `rows` of the table's cells. */
  method CollectRows(rels: seq<Relationship>, m: BlockMap) returns (r: Result<Rows, Failure>)
    ensures Collect(rels, CellsStep(m)).Ok? ==> r == Ok(RowsOf(Collect(rels, CellsStep(m)).value))
    ensures Collect(rels, CellsStep(m)).Err? ==> r == Err(Collect(rels, CellsStep(m)).error)
  {
    var rows: Rows := [];
    ghost var es: seq<CellEntry> := [];
    var i := 0;
    while i < |rels|
      invariant 0 <= i <= |rels|
      invariant Collect(rels[..i], CellsStep(m)) == Ok(es)
      invariant rows == RowsOf(es)
    {
      var rel := rels[i];
      ghost var found: seq<CellEntry> := [];
      assert es + found == es;
      if rel.relType == "CHILD" {
        var t := PutChildCells(rows, es, rel.ids, m);
        if t.Err? {
          CollectErrAt(rels, i, CellsStep(m));
          return Err(t.error);
        }
        found := Collect(rel.ids, CellStep(m)).value;
        rows := t.value;
      }
      CollectOkStep(rels, i, CellsStep(m), es, found);
      es := es + found;
      i := i + 1;
    }
    assert rels[..i] == rels;
    return Ok(rows);
  }

  /** The second loop of `reconstruct_table`: `table[r_idx - 1][c_idx - 1] = c_text` for every stored cell. */
  method FillGrid(blank: Grid, rows: Rows) returns (r: Result<Grid, Failure>)
    ensures r == Fill(blank, rows)
  {
    var table := blank;
    var i := 0;
    while i < |rows|
      invariant 0 <= i <= |rows|
      invariant Fill(blank, rows[..i]) == Ok(table)
    {
      var next := FillRowCells(table, rows[i].0, rows[i].1);
      assert rows[..i + 1][..i] == rows[..i];
      if next.Err? {
        FillSticks(blank, rows, i + 1);
        return next;
      }
      table := next.value;
      i := i + 1;
    }
    assert rows[..i] == rows;
    return Ok(table);
  }

  /** The inner loop of the second loop of `reconstruct_table`: the writes of one row dict. */
  method FillRowCells(start: Grid, rIdx: int, rData: Row) returns (r: Result<Grid, Failure>)
    ensures r == FillRow(start, rIdx, rData)
  {
    var table := start;
    var j := 0;
    while j < |rData|
      invariant 0 <= j <= |rData|
      invariant FillRow(start, rIdx, rData[..j]) == Ok(table)
    {
      assert rData[..j + 1][..j] == rData[..j];
      var cIdx := rData[j].0;
      var ri := PyIndex(rIdx - 1, |table|);
      if ri.None? {
        FillRowSticks(start, rIdx, rData, j + 1);
        return Err(ListIndexOutOfRange);
      }
      var ci := PyIndex(cIdx - 1, |table[ri.value]|);
      if ci.None? {
        FillRowSticks(start, rIdx, rData, j + 1);
        return Err(ListAssignmentOutOfRange);
      }
      table := table[ri.value := table[ri.value][ci.value := rData[j].1]];
      j := j + 1;
    }
    assert rData[..j] == rData;
    return Ok(table);
  }

  /** `reconstruct_table(table_block, block_map)` */
  method ReconstructTable(t: Block, m: BlockMap) returns (r: Result<Grid, Failure>)
    ensures r == Table(t, m)
  {
    if t.relationships.None? {
      return Err(KeyError("Relationships"));
    }
    var rows := CollectRows(t.relationships.value, m);
    if rows.Err? {
      return Err(rows.error);
    }
    ghost var es := Entries(t, m).value;
    RowsOfNonEmpty(es);
    if rows.value == [] {
      return Ok([]);
    }
    r := FillGrid(BlankFor(rows.value), rows.value);
  }

  /** The line of one key block: `f"- **{key_text}:** {value_text}"`. */
  method KeyLineOf(kb: Block, m: BlockMap) returns (r: Result<seq<string>, Failure>)
    ensures r == KeyLine(kb, m)
  {
    var keyText :- GetTextFromRelationships(kb, m);
    var valueText :- GetValueText(kb, m);
    return Ok([FormLine(keyText, valueText)]);
  }

  /** The form section of `parse_textract_response`, appended to `lines`. */
  method AppendFormData(lines: seq<string>, kbs: seq<Block>, m: BlockMap) returns (r: Result<seq<string>, Failure>)
    ensures FormLines(kbs, m).Ok? ==> r == Ok(lines + FormLines(kbs, m).value)
    ensures FormLines(kbs, m).Err? ==> r == Err(FormLines(kbs, m).error)
  {
    if kbs == [] {
      assert lines + [] == lines;
      return Ok(lines);
    }
    var out := lines + [FormHeading];
    ghost var keyLines: seq<string> := [];
    var i := 0;
    while i < |kbs|
      invariant 0 <= i <= |kbs|
      invariant Collect(kbs[..i], KeyLineStep(m)) == Ok(keyLines)
      invariant out == (lines + [FormHeading]) + keyLines
    {
      var line := KeyLineOf(kbs[i], m);
      if line.Err? {
        CollectErrAt(kbs, i, KeyLineStep(m));
        return Err(line.error);
      }
      CollectOkStep(kbs, i, KeyLineStep(m), keyLines, line.value);
      ConcatAssoc(lines + [FormHeading], keyLines, line.value);
      out := out + line.value;
      keyLines := keyLines + line.value;
      i := i + 1;
    }
    assert kbs[..i] == kbs;
    FramedAppend(lines, keyLines);
    return Ok(out + [SectionEnd]);
  }

  lemma FramedAppend(lines: seq<string>, keyLines: seq<string>)
    ensures (lines + [FormHeading]) + keyLines + [SectionEnd] == lines + ([FormHeading] + keyLines + [SectionEnd])
  {
  }

  /** The lines one non-empty reconstructed table adds. */
  method AppendGrid(lines: seq<string>, g: Grid) returns (out: seq<string>)
    requires g != []
    ensures out == lines + GridLines(g)
  {
    var header := RowLine(g[0]);
    var separator := RowLine(Repeat("---", |g[0]|));
    out := lines + [header, separator];
    var k := 1;
    while k < |g|
      invariant 1 <= k <= |g|
      invariant out == lines + [header, separator] + RowLines(g[1..k])
    {
      assert g[1..k + 1][..k - 1] == g[1..k];
      out := out + [RowLine(g[k])];
      k := k + 1;
    }
    assert g[1..k] == g[1..];
    out := out + [SectionEnd];
  }

  /** Table number `n`: `### Table n`, then its rows unless the reconstruction is empty. */
  method AppendSection(lines: seq<string>, n: nat, g: Grid) returns (out: seq<string>)
    ensures out == lines + SectionOf(n, g)
  {
    out := lines + [TableHeading(n)];
    if g == [] || g[0] == [] {
      assert [TableHeading(n)] + [] == [TableHeading(n)];
      return;
    }
    out := AppendGrid(out, g);
    assert out == lines + ([TableHeading(n)] + GridLines(g));
  }

  /** The loop `for i, table in enumerate(table_blocks)`, appending each table's section. */
  method AppendSections(lines: seq<string>, tbs: seq<Block>, m: BlockMap) returns (r: Result<seq<string>, Failure>)
    ensures Sections(Grids(tbs, m)).Ok? ==> r == Ok(lines + Sections(Grids(tbs, m)).value)
    ensures Sections(Grids(tbs, m)).Err? ==> r == Err(Sections(Grids(tbs, m)).error)
  {
    ghost var gs := Grids(tbs, m);
    var out := lines;
    ghost var sections: seq<string> := [];
    assert lines + sections == lines;
    var i := 0;
    while i < |tbs|
      invariant 0 <= i <= |tbs|
      invariant Sections(gs[..i]) == Ok(sections)
      invariant out == lines + sections
    {
      var next := AppendTableSection(out, tbs[i], m, i + 1);
      assert gs[i] == Table(tbs[i], m);
      if next.Err? {
        SectionsErrAt(gs, i);
        return Err(next.error);
      }
      SectionsStep(gs, i, sections, gs[i].value);
      ConcatAssoc(lines, sections, SectionOf(i + 1, gs[i].value));
      out := next.value;
      sections := sections + SectionOf(i + 1, gs[i].value);
      i := i + 1;
    }
    assert gs[..i] == gs;
    return Ok(out);
  }

  /** One pass of the loop over the table blocks: reconstruct table `n`, then append its section. */
  method AppendTableSection(lines: seq<string>, tb: Block, m: BlockMap, n: nat) returns (r: Result<seq<string>, Failure>)
    ensures Table(tb, m).Ok? ==> r == Ok(lines + SectionOf(n, Table(tb, m).value))
    ensures Table(tb, m).Err? ==> r == Err(Table(tb, m).error)
  {
    var tableData :- ReconstructTable(tb, m);
    var out := AppendSection(lines, n, tableData);
    return Ok(out);
  }

  /** The tables section of `parse_textract_response`, appended to `lines`. */
  method AppendTables(lines: seq<string>, tbs: seq<Block>, m: BlockMap) returns (r: Result<seq<string>, Failure>)
    ensures TableLines(tbs, m).Ok? ==> r == Ok(lines + TableLines(tbs, m).value)
    ensures TableLines(tbs, m).Err? ==> r == Err(TableLines(tbs, m).error)
  {
    if tbs == [] {
      assert lines + [] == lines;
      return Ok(lines);
    }
    r := AppendSections(lines + [TablesHeading], tbs, m);
    if r.Ok? {
      assert r.value == lines + ([TablesHeading] + Sections(Grids(tbs, m)).value);
    }
  }

  /** `parse_textract_response({'Blocks': blocks})` */
  method ParseTextractResponse(blocks: seq<Block>) returns (r: Result<string, Failure>)
    ensures r == Markdown(blocks)
  {
    var blockMap := BlockMapOf(blocks);
    var markdownLines := [Title];
    var keyValueBlocks := KeyBlocks(blocks);
    if keyValueBlocks.Err? {
      return Err(keyValueBlocks.error);
    }
    var withForm := AppendFormData(markdownLines, keyValueBlocks.value, blockMap);
    if withForm.Err? {
      return Err(withForm.error);
    }
    var withTables := AppendTables(withForm.value, TableBlocks(blocks), blockMap);
    if withTables.Err? {
      return Err(withTables.error);
    }
    return Ok(Join("\n", withTables.value));
  }
}
