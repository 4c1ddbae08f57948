/**
 * The Textract response model and the functional specification of the
 * converter in lambda/process-pdf-with-textract/lambda_function.py.
 *
 * A Python exception raised while converting is an `Err(Failure)`; the order
 * in which the functions below look at the input is the order in which the
 * Python code does, so the first exception the code raises is the one the
 * specification returns.
 */
module TextractSpec {
  import opened Wrappers
  import opened Strings

  /** One entry of a block's `Relationships` list. */
  datatype Relationship = Relationship(relType: string, ids: seq<string>)

  /**
   * A Textract block. `Id` and `BlockType` are always present; the other keys
   * may be absent from the JSON (`None`).
   */
  datatype Block = Block(
    id: string,
    blockType: string,
    entityTypes: Option<seq<string>>,
    text: Option<string>,
    rowIndex: Option<int>,
    columnIndex: Option<int>,
    relationships: Option<seq<Relationship>>)

  type BlockMap = map<string, Block>

  /** The exceptions the converter can raise. */
  datatype Failure =
    | KeyError(key: string)       // `d['key']` on a dict without that key
    | NoneHasNoGet                // `None.get(...)`: a VALUE id that is not a block
    | ListIndexOutOfRange         // `table[r - 1]` outside the grid
    | ListAssignmentOutOfRange    // `row[c - 1] = ...` outside the row

  /** `str(e)` of each exception. */
  function FailureMessage(f: Failure): string {
    match f
    case KeyError(k) => "'" + k + "'"
    case NoneHasNoGet => "'NoneType' object has no attribute 'get'"
    case ListIndexOutOfRange => "list index out of range"
    case ListAssignmentOutOfRange => "list assignment index out of range"
  }

  /**
   * Runs `f` over `s` from left to right and concatenates the results; the
   * first `Err` stops the run, as a raised exception stops a Python loop.
   */
  function Collect<T, U>(s: seq<T>, f: T -> Result<seq<U>, Failure>): Result<seq<U>, Failure>
    decreases |s|
  {
    if s == [] then Ok([])
    else
      var done :- Collect(s[..|s| - 1], f);
      var more :- f(s[|s| - 1]);
      Ok(done + more)
  }

  /** One more element of `s` processed. */
  lemma CollectStep<T, U>(s: seq<T>, k: nat, f: T -> Result<seq<U>, Failure>)
    requires k < |s|
    ensures Collect(s[..k + 1], f) ==
      (var done :- Collect(s[..k], f); var more :- f(s[k]); Ok(done + more))
  {
    assert s[..k + 1][..k] == s[..k];
  }

  lemma CollectOkStep<T, U>(s: seq<T>, k: nat, f: T -> Result<seq<U>, Failure>, done: seq<U>, more: seq<U>)
    requires k < |s| && Collect(s[..k], f) == Ok(done) && f(s[k]) == Ok(more)
    ensures Collect(s[..k + 1], f) == Ok(done + more)
  {
    assert s[..k + 1][..k] == s[..k];
  }

  /** Once a prefix has failed, the whole run fails with the same exception. */
  lemma {:induction false} CollectSticks<T, U>(s: seq<T>, k: nat, f: T -> Result<seq<U>, Failure>)
    requires k <= |s| && Collect(s[..k], f).Err?
    ensures Collect(s, f) == Collect(s[..k], f)
    decreases |s|
  {
    if k < |s| {
      var init := s[..|s| - 1];
      assert init[..k] == s[..k];
      CollectSticks(init, k, f);
    } else {
      assert s[..k] == s;
    }
  }

  /** The first failing element decides the result of the whole run. */
  lemma CollectErrAt<T, U>(s: seq<T>, k: nat, f: T -> Result<seq<U>, Failure>)
    requires k < |s| && Collect(s[..k], f).Ok? && f(s[k]).Err?
    ensures Collect(s, f) == Err(f(s[k]).error)
  {
    CollectStep(s, k, f);
    CollectSticks(s, k + 1, f);
  }

  /** `{block['Id']: block for block in blocks}`: a later block with the same id replaces an earlier one. */
  function BlockMapOf(blocks: seq<Block>): BlockMap
    decreases |blocks|
  {
    if blocks == [] then map[]
    else BlockMapOf(blocks[..|blocks| - 1])[blocks[|blocks| - 1].id := blocks[|blocks| - 1]]
  }

  /** `block.get('Relationships', [])` */
  function RelationshipsOrEmpty(b: Block): seq<Relationship> {
    if b.relationships.Some? then b.relationships.value else []
  }

  // ---------------------------------------------------------------------------
  // get_text_from_relationships

  /** The text one CHILD id contributes: a WORD block's `Text`, nothing for a missing id or another block type. */
  function ChildWord(id: string, m: BlockMap): Result<seq<string>, Failure> {
    if id in m && m[id].blockType == "WORD" then
      if m[id].text.Some? then Ok([m[id].text.value]) else Err(KeyError("Text"))
    else Ok([])
  }

  function ChildWordStep(m: BlockMap): string -> Result<seq<string>, Failure> {
    id => ChildWord(id, m)
  }

  function WordsOf(rel: Relationship, m: BlockMap): Result<seq<string>, Failure> {
    if rel.relType == "CHILD" then Collect(rel.ids, ChildWordStep(m)) else Ok([])
  }

  function WordsStep(m: BlockMap): Relationship -> Result<seq<string>, Failure> {
    rel => WordsOf(rel, m)
  }

  /** The texts of the block's CHILD-related WORD blocks, in relationship and id order. */
  function Words(b: Block, m: BlockMap): Result<seq<string>, Failure> {
    Collect(RelationshipsOrEmpty(b), WordsStep(m))
  }

  /** `get_text_from_relationships(b, block_map)` */
  function WordText(b: Block, m: BlockMap): Result<string, Failure> {
    var ws :- Words(b, m);
    Ok(Strip(SpaceTerminated(ws)))
  }

  // ---------------------------------------------------------------------------
  // get_value_text

  /** The text of one VALUE id: `get_text_from_relationships(block_map.get(id), ...)`. */
  function ValueWord(id: string, m: BlockMap): Result<seq<string>, Failure> {
    if id in m then
      var t :- WordText(m[id], m);
      Ok([t])
    else Err(NoneHasNoGet)
  }

  function ValueWordStep(m: BlockMap): string -> Result<seq<string>, Failure> {
    id => ValueWord(id, m)
  }

  function ValuesOf(rel: Relationship, m: BlockMap): Result<seq<string>, Failure> {
    if rel.relType == "VALUE" then Collect(rel.ids, ValueWordStep(m)) else Ok([])
  }

  function ValuesStep(m: BlockMap): Relationship -> Result<seq<string>, Failure> {
    rel => ValuesOf(rel, m)
  }

  /** `get_value_text(key_block, block_map)` */
  function ValueText(kb: Block, m: BlockMap): Result<string, Failure> {
    var ts :- Collect(RelationshipsOrEmpty(kb), ValuesStep(m));
    Ok(Strip(SpaceTerminated(ts)))
  }

  // ---------------------------------------------------------------------------
  // reconstruct_table

  /** What one resolved cell writes into `rows`. */
  datatype CellEntry = CellEntry(row: int, col: int, text: string)

  /** The dict of one row, `{col_idx: text}`, as its entries in insertion order. */
  type Row = seq<(int, string)>
  /** The dict `rows`, `{row_idx: {col_idx: text}}`, as its entries in insertion order. */
  type Rows = seq<(int, Row)>
  type Grid = seq<seq<string>>

  /** `cell['RowIndex'], cell['ColumnIndex']` and the cell's text. */
  function EntryOf(cell: Block, m: BlockMap): Result<CellEntry, Failure> {
    if cell.rowIndex.None? then Err(KeyError("RowIndex"))
    else if cell.columnIndex.None? then Err(KeyError("ColumnIndex"))
    else
      var t :- WordText(cell, m);
      Ok(CellEntry(cell.rowIndex.value, cell.columnIndex.value, t))
  }

  /** One CHILD id of the table: skipped when it is not a block (`if not cell: continue`). */
  function CellOf(id: string, m: BlockMap): Result<seq<CellEntry>, Failure> {
    if id in m then
      var e :- EntryOf(m[id], m);
      Ok([e])
    else Ok([])
  }

  function CellStep(m: BlockMap): string -> Result<seq<CellEntry>, Failure> {
    id => CellOf(id, m)
  }

  function CellsOf(rel: Relationship, m: BlockMap): Result<seq<CellEntry>, Failure> {
    if rel.relType == "CHILD" then Collect(rel.ids, CellStep(m)) else Ok([])
  }

  function CellsStep(m: BlockMap): Relationship -> Result<seq<CellEntry>, Failure> {
    rel => CellsOf(rel, m)
  }

  /** `table_block['Relationships']`, a KeyError when absent. */
  function TableRelationships(t: Block): Result<seq<Relationship>, Failure> {
    if t.relationships.Some? then Ok(t.relationships.value) else Err(KeyError("Relationships"))
  }

  /** The resolved cells of a table, in relationship and id order. */
  function Entries(t: Block, m: BlockMap): Result<seq<CellEntry>, Failure> {
    var rels :- TableRelationships(t);
    Collect(rels, CellsStep(m))
  }

  /** `row[c] = t` on a Python dict: an existing key keeps its place, a new key goes last. */
  function PutCol(row: Row, c: int, t: string): Row {
    if row == [] then [(c, t)]
    else if row[0].0 == c then [(c, t)] + row[1..]
    else [row[0]] + PutCol(row[1..], c, t)
  }

  /** `if r not in rows: rows[r] = {}` followed by `rows[r][c] = t`. */
  function PutCell(rows: Rows, e: CellEntry): Rows {
    if rows == [] then [(e.row, [(e.col, e.text)])]
    else if rows[0].0 == e.row then [(e.row, PutCol(rows[0].1, e.col, e.text))] + rows[1..]
    else [rows[0]] + PutCell(rows[1..], e)
  }

  /** The dict `rows` after every entry has been stored. */
  function RowsOf(es: seq<CellEntry>): Rows
    decreases |es|
  {
    if es == [] then [] else PutCell(RowsOf(es[..|es| - 1]), es[|es| - 1])
  }

  lemma RowsOfExtend(es: seq<CellEntry>, more: seq<CellEntry>, e: CellEntry)
    ensures PutCell(RowsOf(es + more), e) == RowsOf(es + (more + [e]))
  {
    assert (es + more + [e])[..|es + more|] == es + more;
    assert es + more + [e] == es + (more + [e]);
  }

  function Max(a: int, b: int): int {
    if a < b then b else a
  }

  /** Python's `max` of a non-empty list. */
  function MaxOf(xs: seq<int>): int
    requires xs != []
    decreases |xs|
  {
    if |xs| == 1 then xs[0] else Max(MaxOf(xs[..|xs| - 1]), xs[|xs| - 1])
  }

  /** `rows.keys()` */
  function RowKeys(rows: Rows): (ks: seq<int>)
    ensures |ks| == |rows|
    ensures forall i :: 0 <= i < |rows| ==> ks[i] == rows[i].0
    decreases |rows|
  {
    if rows == [] then [] else RowKeys(rows[..|rows| - 1]) + [rows[|rows| - 1].0]
  }

  /** `r.keys()` */
  function ColKeys(row: Row): (ks: seq<int>)
    ensures |ks| == |row|
    ensures forall j :: 0 <= j < |row| ==> ks[j] == row[j].0
    decreases |row|
  {
    if row == [] then [] else ColKeys(row[..|row| - 1]) + [row[|row| - 1].0]
  }

  /** Every row dict holds at least one column (true of every `rows` the code builds). */
  predicate RowsNonEmpty(rows: Rows) {
    forall i :: 0 <= i < |rows| ==> rows[i].1 != []
  }

  /** `max(r.keys()) for r in rows.values()` */
  function RowMaxCols(rows: Rows): (ms: seq<int>)
    requires RowsNonEmpty(rows)
    ensures |ms| == |rows|
    ensures forall i :: 0 <= i < |rows| ==> ms[i] == MaxOf(ColKeys(rows[i].1))
    decreases |rows|
  {
    if rows == [] then []
    else RowMaxCols(rows[..|rows| - 1]) + [MaxOf(ColKeys(rows[|rows| - 1].1))]
  }

  /** `max(max(r.keys()) for r in rows.values())` */
  function MaxCol(rows: Rows): int
    requires rows != [] && RowsNonEmpty(rows)
  {
    MaxOf(RowMaxCols(rows))
  }

  /** `["" for _ in range(n)]` (a negative range is empty). */
  function BlankRow(n: int): (r: seq<string>)
    decreases n
  {
    if n <= 0 then [] else BlankRow(n - 1) + [""]
  }

  /** `[["" for _ in range(ncols)] for _ in range(nrows)]` */
  function Blank(nrows: int, ncols: int): Grid
    decreases nrows
  {
    if nrows <= 0 then [] else Blank(nrows - 1, ncols) + [BlankRow(ncols)]
  }

  /** Python list indexing: a negative index counts from the end. */
  function PyIndex(k: int, len: nat): (r: Option<nat>)
    ensures r.Some? ==> r.value < len
    ensures r.Some? <==> -(len as int) <= k < len
    ensures r.Some? ==> r.value == if k >= 0 then k else k + len
  {
    if 0 <= k < len then Some(k) else if -(len as int) <= k < 0 then Some(k + len) else None
  }

  /** `table[r - 1][c - 1] = t` */
  function WriteCell(g: Grid, r: int, c: int, t: string): Result<Grid, Failure> {
    match PyIndex(r - 1, |g|)
    case None => Err(ListIndexOutOfRange)
    case Some(i) =>
      match PyIndex(c - 1, |g[i]|)
      case None => Err(ListAssignmentOutOfRange)
      case Some(j) => Ok(g[i := g[i][j := t]])
  }

  /** `for c_idx, c_text in r_data.items(): ...` */
  function FillRow(g: Grid, r: int, row: Row): Result<Grid, Failure>
    decreases |row|
  {
    if row == [] then Ok(g)
    else
      var g' :- FillRow(g, r, row[..|row| - 1]);
      WriteCell(g', r, row[|row| - 1].0, row[|row| - 1].1)
  }

  /** `for r_idx, r_data in rows.items(): ...` */
  function Fill(g: Grid, rows: Rows): Result<Grid, Failure>
    decreases |rows|
  {
    if rows == [] then Ok(g)
    else
      var g' :- Fill(g, rows[..|rows| - 1]);
      FillRow(g', rows[|rows| - 1].0, rows[|rows| - 1].1)
  }

  lemma {:induction false} FillRowSticks(g: Grid, r: int, row: Row, k: nat)
    requires k <= |row| && FillRow(g, r, row[..k]).Err?
    ensures FillRow(g, r, row) == FillRow(g, r, row[..k])
    decreases |row|
  {
    if k < |row| {
      var init := row[..|row| - 1];
      assert init[..k] == row[..k];
      FillRowSticks(g, r, init, k);
    } else {
      assert row[..k] == row;
    }
  }

  lemma {:induction false} FillSticks(g: Grid, rows: Rows, k: nat)
    requires k <= |rows| && Fill(g, rows[..k]).Err?
    ensures Fill(g, rows) == Fill(g, rows[..k])
    decreases |rows|
  {
    if k < |rows| {
      var init := rows[..|rows| - 1];
      assert init[..k] == rows[..k];
      FillSticks(g, init, k);
    } else {
      assert rows[..k] == rows;
    }
  }

  lemma {:induction false} PutColNonEmpty(row: Row, c: int, t: string)
    ensures PutCol(row, c, t) != []
  {
  }

  lemma {:induction false} PutCellNonEmpty(rows: Rows, e: CellEntry)
    requires RowsNonEmpty(rows)
    ensures PutCell(rows, e) != [] && RowsNonEmpty(PutCell(rows, e))
  {
    if rows != [] && rows[0].0 != e.row {
      assert RowsNonEmpty(rows[1..]) by {
        forall i | 0 <= i < |rows| - 1 ensures rows[1..][i].1 != [] {
          assert rows[1..][i] == rows[i + 1];
        }
      }
      PutCellNonEmpty(rows[1..], e);
      var r := PutCell(rows, e);
      forall i | 0 <= i < |r| ensures r[i].1 != [] {
        if i > 0 {
          assert r[i] == PutCell(rows[1..], e)[i - 1];
        }
      }
    }
  }

  /** Every row dict in `rows` got its first column when it was created. */
  lemma {:induction false} RowsOfNonEmpty(es: seq<CellEntry>)
    ensures RowsNonEmpty(RowsOf(es))
    ensures es != [] <==> RowsOf(es) != []
    decreases |es|
  {
    if es != [] {
      RowsOfNonEmpty(es[..|es| - 1]);
      PutCellNonEmpty(RowsOf(es[..|es| - 1]), es[|es| - 1]);
    }
  }

  /** The pre-sized grid `fill` starts from. */
  function BlankFor(rows: Rows): Grid
    requires rows != [] && RowsNonEmpty(rows)
  {
    Blank(MaxOf(RowKeys(rows)), MaxCol(rows))
  }

  /** `reconstruct_table(table_block, block_map)` */
  function Table(t: Block, m: BlockMap): Result<Grid, Failure> {
    var es :- Entries(t, m);
    var rows := RowsOf(es);
    RowsOfNonEmpty(es);
    if rows == [] then Ok([]) else Fill(BlankFor(rows), rows)
  }

  // ---------------------------------------------------------------------------
  // parse_textract_response

  const Title: string := "# Document Analysis\n"
  const FormHeading: string := "## Form Data\n"
  const TablesHeading: string := "## Tables\n"
  const SectionEnd: string := "\n"

  /** `f"### Table {n}\n"` */
  function TableHeading(n: nat): string {
    "### Table " + NatToString(n) + "\n"
  }

  /** `"| " + " | ".join(cells) + " |"` */
  function RowLine(cells: seq<string>): string {
    "| " + Join(" | ", cells) + " |"
  }

  /** `f"- **{key_text}:** {value_text}"` */
  function FormLine(key: string, value: string): string {
    "- **" + key + ":** " + value
  }

  /** The filter `b['BlockType'] == 'KEY_VALUE_SET' and 'KEY' in b['EntityTypes']`. */
  function KeyFilter(b: Block): Result<seq<Block>, Failure> {
    if b.blockType != "KEY_VALUE_SET" then Ok([])
    else if b.entityTypes.None? then Err(KeyError("EntityTypes"))
    else if "KEY" in b.entityTypes.value then Ok([b])
    else Ok([])
  }

  function KeyFilterStep(): Block -> Result<seq<Block>, Failure> {
    b => KeyFilter(b)
  }

  /** `key_value_blocks` */
  function KeyBlocks(blocks: seq<Block>): Result<seq<Block>, Failure> {
    Collect(blocks, KeyFilterStep())
  }

  /** `table_blocks` */
  function TableBlocks(blocks: seq<Block>): seq<Block>
    decreases |blocks|
  {
    if blocks == [] then []
    else
      var last := blocks[|blocks| - 1];
      TableBlocks(blocks[..|blocks| - 1]) + (if last.blockType == "TABLE" then [last] else [])
  }

  /** The form line of one key block: key text first, then value text. */
  function KeyLine(kb: Block, m: BlockMap): Result<seq<string>, Failure> {
    var k :- WordText(kb, m);
    var v :- ValueText(kb, m);
    Ok([FormLine(k, v)])
  }

  function KeyLineStep(m: BlockMap): Block -> Result<seq<string>, Failure> {
    kb => KeyLine(kb, m)
  }

  /** The "## Form Data" section, empty when there is no key block. */
  function FormLines(kbs: seq<Block>, m: BlockMap): Result<seq<string>, Failure> {
    if kbs == [] then Ok([])
    else
      var ls :- Collect(kbs, KeyLineStep(m));
      Ok([FormHeading] + ls + [SectionEnd])
  }

  /** The lines after a table's heading: header, separator, remaining rows, blank line. */
  function GridLines(g: Grid): seq<string>
    requires g != []
  {
    [RowLine(g[0]), RowLine(Repeat("---", |g[0]|))] + RowLines(g[1..]) + [SectionEnd]
  }

  /** `"| " + " | ".join(row) + " |"` for each row of `rows`. */
  function RowLines(rows: Grid): (ls: seq<string>)
    ensures |ls| == |rows|
    ensures forall k :: 0 <= k < |rows| ==> ls[k] == RowLine(rows[k])
    decreases |rows|
  {
    if rows == [] then [] else RowLines(rows[..|rows| - 1]) + [RowLine(rows[|rows| - 1])]
  }

  /** Table number `n`: its heading, then its grid unless the grid or its first row is empty. */
  function SectionOf(n: nat, g: Grid): seq<string> {
    [TableHeading(n)] + (if g == [] || g[0] == [] then [] else GridLines(g))
  }

  /** `reconstruct_table` of every table block, in document order. */
  function Grids(tbs: seq<Block>, m: BlockMap): seq<Result<Grid, Failure>> {
    seq(|tbs|, i requires 0 <= i < |tbs| => Table(tbs[i], m))
  }

  /**
   * The sections of the reconstructed tables `gs`, numbered from 1; the first
   * failed reconstruction is the result.
   */
  function Sections(gs: seq<Result<Grid, Failure>>): Result<seq<string>, Failure>
    decreases |gs|
  {
    if gs == [] then Ok([])
    else
      var done :- Sections(gs[..|gs| - 1]);
      var g :- gs[|gs| - 1];
      Ok(done + SectionOf(|gs|, g))
  }

  lemma {:induction false} SectionsSticks(gs: seq<Result<Grid, Failure>>, k: nat)
    requires k <= |gs| && Sections(gs[..k]).Err?
    ensures Sections(gs) == Sections(gs[..k])
    decreases |gs|
  {
    if k < |gs| {
      var init := gs[..|gs| - 1];
      assert init[..k] == gs[..k];
      SectionsSticks(init, k);
    } else {
      assert gs[..k] == gs;
    }
  }

  lemma SectionsStep(gs: seq<Result<Grid, Failure>>, k: nat, done: seq<string>, g: Grid)
    requires k < |gs| && Sections(gs[..k]) == Ok(done) && gs[k] == Ok(g)
    ensures Sections(gs[..k + 1]) == Ok(done + SectionOf(k + 1, g))
  {
    assert gs[..k + 1][..k] == gs[..k];
  }

  lemma SectionsErrAt(gs: seq<Result<Grid, Failure>>, k: nat)
    requires k < |gs| && Sections(gs[..k]).Ok? && gs[k].Err?
    ensures Sections(gs) == Err(gs[k].error)
  {
    assert gs[..k + 1][..k] == gs[..k];
    SectionsSticks(gs, k + 1);
  }

  /** The "## Tables" section, empty when there is no table block. */
  function TableLines(tbs: seq<Block>, m: BlockMap): Result<seq<string>, Failure> {
    if tbs == [] then Ok([])
    else
      var ls :- Sections(Grids(tbs, m));
      Ok([TablesHeading] + ls)
  }

  /** `markdown_lines` at the end of `parse_textract_response`. */
  function MarkdownLines(blocks: seq<Block>): Result<seq<string>, Failure> {
    var m := BlockMapOf(blocks);
    var kbs :- KeyBlocks(blocks);
    var form :- FormLines(kbs, m);
    var tables :- TableLines(TableBlocks(blocks), m);
    Ok([Title] + form + tables)
  }

  /** `parse_textract_response({'Blocks': blocks})` */
  function Markdown(blocks: seq<Block>): Result<string, Failure> {
    var ls :- MarkdownLines(blocks);
    Ok(Join("\n", ls))
  }
}
