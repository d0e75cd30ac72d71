/**
 The two diff views of the portal: numbered lines of a unified patch, and rows that put both versions
 side by side.
 */
module SplitDiff {
  import opened Text
  import opened Lines

  // ----- Side by side -----

  datatype Tag = Equal | Delete | Insert | Replace

  datatype Opcode = Opcode(tag: Tag, i1: nat, i2: nat, j1: nat, j2: nat)

  datatype RowKind = ContextRow | RemoveRow | AddRow | ChangeRow

  datatype Row = Row(left: string, right: string, kind: RowKind)

  predicate InBounds(op: Opcode, before: seq<string>, after: seq<string>) {
    op.i1 <= op.i2 <= |before| && op.j1 <= op.j2 <= |after|
  }

  ghost predicate AllInBounds(opcodes: seq<Opcode>, before: seq<string>, after: seq<string>) {
    forall k | 0 <= k < |opcodes| :: InBounds(opcodes[k], before, after)
  }

  /** An opcode turns one slice into another, as its tag says. */
  predicate IsHonest(op: Opcode, before: seq<string>, after: seq<string>) {
    && InBounds(op, before, after)
    && match op.tag
       case Equal => before[op.i1..op.i2] == after[op.j1..op.j2]
       case Delete => op.j1 == op.j2
       case Insert => op.i1 == op.i2
       case Replace => true
  }

  /** Honest opcodes that follow each other without gaps, up to `i` and `j`. */
  ghost predicate TileUpTo(opcodes: seq<Opcode>, before: seq<string>, after: seq<string>, i: nat, j: nat) {
    if opcodes == [] then i == 0 && j == 0
    else
      var last := opcodes[|opcodes| - 1];
      && IsHonest(last, before, after) && last.i2 == i && last.j2 == j
      && TileUpTo(opcodes[..|opcodes| - 1], before, after, last.i1, last.j1)
  }

  /** What `SequenceMatcher.get_opcodes()` promises. */
  ghost predicate Tiles(opcodes: seq<Opcode>, before: seq<string>, after: seq<string>) {
    TileUpTo(opcodes, before, after, |before|, |after|)
  }

  function Cell(lines: seq<string>, index: nat): string {
    if index < |lines| then lines[index] else ""
  }

  function PairRow(left: string, right: string): Row {
    Row(left, right, if left != "" && right != "" then ChangeRow else if left != "" then RemoveRow else AddRow)
  }

  /** The row of a line that stays, goes or comes by itself. */
  function LoneRow(tag: Tag, line: string): Row {
    match tag
    case Equal => Row(line, line, ContextRow)
    case Delete => Row(line, "", RemoveRow)
    case _ => Row("", line, AddRow)
  }

  function LoneRows(tag: Tag, lines: seq<string>): seq<Row> {
    seq(|lines|, k requires 0 <= k < |lines| => LoneRow(tag, lines[k]))
  }

  function PairedRows(removed: seq<string>, added: seq<string>): seq<Row> {
    var span := if |removed| < |added| then |added| else |removed|;
    seq(span, k requires 0 <= k < span => PairRow(Cell(removed, k), Cell(added, k)))
  }

  function RowsOf(op: Opcode, before: seq<string>, after: seq<string>): seq<Row>
    requires InBounds(op, before, after)
  {
    var removed, added := before[op.i1..op.i2], after[op.j1..op.j2];
    match op.tag
    case Equal => LoneRows(Equal, removed)
    case Delete => LoneRows(Delete, removed)
    case Insert => LoneRows(Insert, added)
    case Replace => PairedRows(removed, added)
  }

  ghost function AllRows(opcodes: seq<Opcode>, before: seq<string>, after: seq<string>): seq<Row>
    requires AllInBounds(opcodes, before, after)
  {
    if opcodes == [] then []
    else AllRows(opcodes[..|opcodes| - 1], before, after) + RowsOf(opcodes[|opcodes| - 1], before, after)
  }

  lemma {:induction false} TilesAreInBounds(
      opcodes: seq<Opcode>, before: seq<string>, after: seq<string>, i: nat, j: nat)
    requires TileUpTo(opcodes, before, after, i, j)
    ensures i <= |before| && j <= |after|
    ensures AllInBounds(opcodes, before, after)
  {
    if opcodes != [] {
      var last := opcodes[|opcodes| - 1];
      TilesAreInBounds(opcodes[..|opcodes| - 1], before, after, last.i1, last.j1);
    }
  }

  method AppendLone(rows: seq<Row>, tag: Tag, lines: seq<string>) returns (longer: seq<Row>)
    ensures longer == rows + LoneRows(tag, lines)
  {
    longer := rows;
    for k := 0 to |lines|
      invariant |longer| == |rows| + k && longer[..|rows|] == rows
      invariant forall j | 0 <= j < k :: longer[|rows| + j] == LoneRow(tag, lines[j])
    {
      longer := longer + [LoneRow(tag, lines[k])];
    }
  }

  method AppendPaired(rows: seq<Row>, oldChunk: seq<string>, newChunk: seq<string>) returns (longer: seq<Row>)
    ensures longer == rows + PairedRows(oldChunk, newChunk)
  {
    longer := rows;
    var span := if |oldChunk| < |newChunk| then |newChunk| else |oldChunk|;
    for index := 0 to span
      invariant |longer| == |rows| + index && longer[..|rows|] == rows
      invariant forall j | 0 <= j < index :: longer[|rows| + j] == PairRow(Cell(oldChunk, j), Cell(newChunk, j))
    {
      var left := if index < |oldChunk| then oldChunk[index] else "";
      var right := if index < |newChunk| then newChunk[index] else "";
      var kind := if left != "" && right != "" then ChangeRow else if left != "" then RemoveRow else AddRow;
      longer := longer + [Row(left, right, kind)];
    }
  }

  method BuildSplitRows(before: seq<string>, after: seq<string>, opcodes: seq<Opcode>) returns (rows: seq<Row>)
    requires AllInBounds(opcodes, before, after)
    ensures rows == AllRows(opcodes, before, after)
  {
    hide LoneRows; hide PairedRows;
    rows := [];
    for n := 0 to |opcodes|
      invariant rows == AllRows(opcodes[..n], before, after)
    {
      var op := opcodes[n];
      assert opcodes[..n + 1][..n] == opcodes[..n];
      var oldChunk, newChunk := before[op.i1..op.i2], after[op.j1..op.j2];
      if op.tag == Equal || op.tag == Delete {
        rows := AppendLone(rows, op.tag, oldChunk);
      } else if op.tag == Insert {
        rows := AppendLone(rows, op.tag, newChunk);
      } else {
        rows := AppendPaired(rows, oldChunk, newChunk);
      }
    }
    assert opcodes[..|opcodes|] == opcodes;
  }

  function Lefts(rows: seq<Row>): seq<string> {
    seq(|rows|, k requires 0 <= k < |rows| => rows[k].left)
  }

  function Rights(rows: seq<Row>): seq<string> {
    seq(|rows|, k requires 0 <= k < |rows| => rows[k].right)
  }

  /** Padding with empty cells adds no line. */
  lemma PaddingIsEmpty(cells: seq<string>, lines: seq<string>)
    requires |lines| <= |cells|
    requires forall k | 0 <= k < |cells| :: cells[k] == Cell(lines, k)
    ensures NonEmpty(cells) == NonEmpty(lines)
  {
    hide NonEmpty;
    var padding := cells[|lines|..];
    assert cells == lines + padding;
    NonEmptyConcat(lines, padding);
    NonEmptyOfBlanks(padding);
  }

  lemma RowsKeepLines(op: Opcode, before: seq<string>, after: seq<string>)
    requires IsHonest(op, before, after)
    ensures NonEmpty(Lefts(RowsOf(op, before, after))) == NonEmpty(before[op.i1..op.i2])
    ensures NonEmpty(Rights(RowsOf(op, before, after))) == NonEmpty(after[op.j1..op.j2])
  {
    hide NonEmpty;
    var rows := RowsOf(op, before, after);
    var removed, added := before[op.i1..op.i2], after[op.j1..op.j2];
    match op.tag {
      case Equal =>
        assert Lefts(rows) == removed && Rights(rows) == added;
      case Delete =>
        assert Lefts(rows) == removed;
        PaddingIsEmpty(Rights(rows), added);
      case Insert =>
        assert Rights(rows) == added;
        PaddingIsEmpty(Lefts(rows), removed);
      case Replace =>
        PaddingIsEmpty(Lefts(rows), removed);
        PaddingIsEmpty(Rights(rows), added);
    }
  }

  lemma {:induction false} RowsUpTo(opcodes: seq<Opcode>, before: seq<string>, after: seq<string>, i: nat, j: nat)
    requires TileUpTo(opcodes, before, after, i, j)
    requires i <= |before| && j <= |after| && AllInBounds(opcodes, before, after)
    ensures NonEmpty(Lefts(AllRows(opcodes, before, after))) == NonEmpty(before[..i])
    ensures NonEmpty(Rights(AllRows(opcodes, before, after))) == NonEmpty(after[..j])
  {
    hide NonEmpty; hide RowsOf;
    if opcodes == [] {
      assert Lefts([]) == [] && Rights([]) == [] && before[..0] == [] && after[..0] == [];
    } else {
      var op, earlier := opcodes[|opcodes| - 1], opcodes[..|opcodes| - 1];
      TilesAreInBounds(earlier, before, after, op.i1, op.j1);
      RowsUpTo(earlier, before, after, op.i1, op.j1);
      RowsKeepLines(op, before, after);
      var rows, more := AllRows(earlier, before, after), RowsOf(op, before, after);
      assert Lefts(rows + more) == Lefts(rows) + Lefts(more);
      assert Rights(rows + more) == Rights(rows) + Rights(more);
      NonEmptyConcat(Lefts(rows), Lefts(more));
      NonEmptyConcat(Rights(rows), Rights(more));
      NonEmptyConcat(before[..op.i1], before[op.i1..i]);
      NonEmptyConcat(after[..op.j1], after[op.j1..j]);
      assert before[..i] == before[..op.i1] + before[op.i1..i];
      assert after[..j] == after[..op.j1] + after[op.j1..j];
    }
  }

  /** What the kind of a row says about its sides. */
  predicate KindFits(row: Row) {
    match row.kind
    case ContextRow => row.left == row.right
    case RemoveRow => row.right == ""
    case AddRow => row.left == ""
    case ChangeRow => row.left != "" && row.right != ""
  }

  lemma {:induction false} KindsFit(opcodes: seq<Opcode>, before: seq<string>, after: seq<string>)
    requires AllInBounds(opcodes, before, after)
    ensures forall row | row in AllRows(opcodes, before, after) :: KindFits(row)
  {
    if opcodes != [] {
      var n := |opcodes| - 1;
      KindsFit(opcodes[..n], before, after);
    }
  }

  /**
   The split view loses no line: read top to bottom, its non-empty left cells are the non-empty lines
   of the old version and its non-empty right cells those of the new one.
   */
  lemma SplitLosesNoLine(opcodes: seq<Opcode>, before: seq<string>, after: seq<string>)
    requires Tiles(opcodes, before, after)
    ensures AllInBounds(opcodes, before, after)
    ensures NonEmpty(Lefts(AllRows(opcodes, before, after))) == NonEmpty(before)
    ensures NonEmpty(Rights(AllRows(opcodes, before, after))) == NonEmpty(after)
    ensures forall row | row in AllRows(opcodes, before, after) :: KindFits(row)
  {
    hide NonEmpty; hide KindFits;
    TilesAreInBounds(opcodes, before, after, |before|, |after|);
    RowsUpTo(opcodes, before, after, |before|, |after|);
    KindsFit(opcodes, before, after);
    assert before[..|before|] == before && after[..|after|] == after;
  }

  // ----- Where each line stands -----

  function Larger(m: nat, n: nat): nat { if m < n then n else m }

  /** How many rows the opcodes before the `n`-th take up: each as many as its longer side has lines. */
  function RowsBefore(opcodes: seq<Opcode>, n: nat): nat
    requires n <= |opcodes| && forall k | 0 <= k < n :: opcodes[k].i1 <= opcodes[k].i2 && opcodes[k].j1 <= opcodes[k].j2
  {
    if n == 0 then 0
    else
      var op := opcodes[n - 1];
      RowsBefore(opcodes, n - 1) + Larger(op.i2 - op.i1, op.j2 - op.j1)
  }

  /** The `t`-th row of an opcode holds the `t`-th line of each side that has one, and says how they relate. */
  predicate StandsAt(row: Row, op: Opcode, before: seq<string>, after: seq<string>, t: nat)
    requires InBounds(op, before, after)
  {
    && row.left == (if t < op.i2 - op.i1 then before[op.i1 + t] else "")
    && row.right == (if t < op.j2 - op.j1 then after[op.j1 + t] else "")
    && row.kind == match op.tag
         case Equal => ContextRow
         case Delete => RemoveRow
         case Insert => AddRow
         case Replace =>
           if row.left == "" then AddRow else if row.right == "" then RemoveRow else ChangeRow
  }

  /** From this row on stand the lines of the opcode, as many as its longer side has. */
  ghost predicate BlockStands(rows: seq<Row>, from: nat, op: Opcode, before: seq<string>, after: seq<string>)
    requires InBounds(op, before, after)
  {
    var length := Larger(op.i2 - op.i1, op.j2 - op.j1);
    && from + length <= |rows|
    && var block := rows[from..from + length];
    forall t | 0 <= t < length :: StandsAt(block[t], op, before, after, t)
  }

  lemma RowsStand(op: Opcode, before: seq<string>, after: seq<string>)
    requires IsHonest(op, before, after)
    ensures |RowsOf(op, before, after)| == Larger(op.i2 - op.i1, op.j2 - op.j1)
    ensures BlockStands(RowsOf(op, before, after), 0, op, before, after)
  {
    var removed, added := before[op.i1..op.i2], after[op.j1..op.j2];
    var rows, length := RowsOf(op, before, after), Larger(op.i2 - op.i1, op.j2 - op.j1);
    assert op.tag == Equal ==> |removed| == |added|;
    assert |rows| == length && rows[0..0 + length] == rows;
    forall t | 0 <= t < length ensures StandsAt(rows[t], op, before, after, t) {
      RowStands(op, before, after, t);
    }
    hide StandsAt; hide RowsOf;
  }

  lemma RowStands(op: Opcode, before: seq<string>, after: seq<string>, t: nat)
    requires IsHonest(op, before, after) && t < |RowsOf(op, before, after)|
    ensures StandsAt(RowsOf(op, before, after)[t], op, before, after, t)
  {
    var removed, added := before[op.i1..op.i2], after[op.j1..op.j2];
    assert t < |removed| ==> removed[t] == before[op.i1 + t];
    assert t < |added| ==> added[t] == after[op.j1 + t];
    if op.tag == Equal { assert |removed| == |added| && removed[t] == added[t]; }
  }

  lemma BlockStaysThere(
      rows: seq<Row>, more: seq<Row>, from: nat, op: Opcode, before: seq<string>, after: seq<string>)
    requires InBounds(op, before, after)
    ensures BlockStands(rows, from, op, before, after) ==> BlockStands(rows + more, from, op, before, after)
    ensures BlockStands(more, 0, op, before, after) ==> BlockStands(rows + more, |rows|, op, before, after)
  {
    hide StandsAt;
    var length := Larger(op.i2 - op.i1, op.j2 - op.j1);
    if from + length <= |rows| {
      assert (rows + more)[from..from + length] == rows[from..from + length];
    }
    if length <= |more| {
      assert (rows + more)[|rows|..|rows| + length] == more[..length] == more[0..0 + length];
    }
  }

  ghost predicate AllHonest(opcodes: seq<Opcode>, before: seq<string>, after: seq<string>) {
    forall k | 0 <= k < |opcodes| :: IsHonest(opcodes[k], before, after)
  }

  /**
   The rows of each opcode follow those of the ones before it, as many as its longer side has lines,
   and put the lines of both sides next to each other in their order.
   */
  lemma {:induction false} EveryLineStands(opcodes: seq<Opcode>, before: seq<string>, after: seq<string>)
    requires AllHonest(opcodes, before, after)
    ensures AllInBounds(opcodes, before, after)
    ensures var rows := AllRows(opcodes, before, after);
      && |rows| == RowsBefore(opcodes, |opcodes|)
      && forall n | 0 <= n < |opcodes| :: BlockStands(rows, RowsBefore(opcodes, n), opcodes[n], before, after)
  {
    HonestAreInBounds(opcodes, before, after);
    if opcodes != [] {
      var m := |opcodes| - 1;
      hide IsHonest; hide StandsAt; hide BlockStands; hide RowsOf; hide Larger;
      var earlier := opcodes[..m];
      EveryLineStands(earlier, before, after);
      RowsStand(opcodes[m], before, after);
      var rows, more := AllRows(earlier, before, after), RowsOf(opcodes[m], before, after);
      RowsBeforePrefix(opcodes, m, m);
      forall n | 0 <= n < |opcodes|
        ensures BlockStands(rows + more, RowsBefore(opcodes, n), opcodes[n], before, after)
      {
        BlockStandsOn(opcodes, rows, more, before, after, n);
      }
      hide AllInBounds; hide AllHonest;
    }
  }

  lemma HonestAreInBounds(opcodes: seq<Opcode>, before: seq<string>, after: seq<string>)
    requires AllHonest(opcodes, before, after)
    ensures AllInBounds(opcodes, before, after)
    ensures opcodes != [] ==> AllHonest(opcodes[..|opcodes| - 1], before, after)
  {
  }

  lemma BlockStandsOn(
      opcodes: seq<Opcode>, rows: seq<Row>, more: seq<Row>, before: seq<string>, after: seq<string>, n: nat)
    requires n < |opcodes| && AllInBounds(opcodes, before, after)
    requires var m := |opcodes| - 1; |rows| == RowsBefore(opcodes, m) && BlockStands(more, 0, opcodes[m], before, after)
    requires n < |opcodes| - 1 ==>
      BlockStands(rows, RowsBefore(opcodes[..|opcodes| - 1], n), opcodes[..|opcodes| - 1][n], before, after)
    ensures BlockStands(rows + more, RowsBefore(opcodes, n), opcodes[n], before, after)
  {
    hide BlockStands; hide Larger;
    var m := |opcodes| - 1;
    RowsBeforePrefix(opcodes, m, n);
    hide RowsBefore;
    BlockStaysThere(rows, more, RowsBefore(opcodes, n), opcodes[n], before, after);
  }

  lemma {:induction false} RowsBeforePrefix(opcodes: seq<Opcode>, m: nat, n: nat)
    requires n <= m <= |opcodes|
    requires forall k | 0 <= k < m :: opcodes[k].i1 <= opcodes[k].i2 && opcodes[k].j1 <= opcodes[k].j2
    ensures RowsBefore(opcodes[..m], n) == RowsBefore(opcodes, n)
  {
    if n > 0 { RowsBeforePrefix(opcodes, m, n - 1); }
  }

  // ----- Unified patches -----

  datatype LineKind = Context | Add | Remove | Hunk | Meta

  datatype DiffLine = DiffLine(kind: LineKind, text: string, oldNo: Option<nat>, newNo: Option<nat>)

  function Classify(line: string): LineKind {
    if StartsWith(line, "+++") || StartsWith(line, "---") || StartsWith(line, "diff --git") then Meta
    else if StartsWith(line, "@@") then Hunk
    else if StartsWith(line, "+") then Add
    else if StartsWith(line, "-") then Remove
    else Context
  }

  /** What the first characters of a line say: a file header starts like an added or removed line, but is none. */
  lemma ClassifyIff(line: string)
    ensures Classify(line) == Meta <==>
      StartsWith(line, "+++") || StartsWith(line, "---") || StartsWith(line, "diff --git")
    ensures Classify(line) == Hunk <==> StartsWith(line, "@@")
    ensures Classify(line) == Add <==> StartsWith(line, "+") && !StartsWith(line, "+++")
    ensures Classify(line) == Remove <==> StartsWith(line, "-") && !StartsWith(line, "---")
  {
    FirstCharDecides(line, "+");
    FirstCharDecides(line, "-");
    FirstCharDecides(line, "+++");
    FirstCharDecides(line, "---");
    FirstCharDecides(line, "@@");
    FirstCharDecides(line, "diff --git");
    hide StartsWith;
  }

  lemma FirstCharDecides(line: string, prefix: string)
    requires prefix != ""
    ensures StartsWith(line, prefix) ==> line != "" && line[0] == prefix[0]
    ensures |prefix| == 1 && line != "" && line[0] == prefix[0] ==> StartsWith(line, prefix)
  {
    if StartsWith(line, prefix) { assert line[..|prefix|][0] == line[0]; }
  }

  /** The line as it stood in the patch. */
  function Rebuild(line: DiffLine): string {
    match line.kind
    case Add => "+" + line.text
    case Remove => "-" + line.text
    case Context => if line.oldNo.Some? then " " + line.text else line.text
    case _ => line.text
  }

  predicate IsOldLine(raw: string) {
    Classify(raw) == Remove || (Classify(raw) == Context && StartsWith(raw, " "))
  }

  predicate IsNewLine(raw: string) {
    Classify(raw) == Add || (Classify(raw) == Context && StartsWith(raw, " "))
  }

  function Count(p: string -> bool, raws: seq<string>): nat {
    if raws == [] then 0 else Count(p, raws[..|raws| - 1]) + if p(raws[|raws| - 1]) then 1 else 0
  }

  /** The `i`-th line says all that its patch line said, and carries the numbers that come next on its sides. */
  ghost predicate Represents(line: DiffLine, raws: seq<string>, i: nat)
    requires i < |raws|
  {
    && line.kind == Classify(raws[i])
    && Rebuild(line) == raws[i]
    && line.oldNo == (if IsOldLine(raws[i]) then Some(Count(IsOldLine, raws[..i]) + 1) else None)
    && line.newNo == (if IsNewLine(raws[i]) then Some(Count(IsNewLine, raws[..i]) + 1) else None)
  }

  /** Parsing is lossless, and numbers each side 1, 2, 3, ... without gaps. */
  method ParseUnifiedPatch(patch: string) returns (lines: seq<DiffLine>)
    ensures var raws := SplitLines(patch, 0);
      |lines| == |raws| && forall i | 0 <= i < |raws| :: Represents(lines[i], raws, i)
  {
    hide Represents;
    var raws := SplitLines(patch, 0);
    lines := [];
    var oldNo, newNo := 0, 0;
    for i := 0 to |raws|
      invariant |lines| == i && forall k | 0 <= k < i :: Represents(lines[k], raws, k)
      invariant oldNo == Count(IsOldLine, raws[..i]) && newNo == Count(IsNewLine, raws[..i])
    {
      var raw := raws[i];
      var kind := Classify(raw);
      assert raws[..i + 1][..i] == raws[..i];
      ghost var o, n := oldNo, newNo;
      var line: DiffLine;
      if kind == Hunk {
        line := DiffLine(kind, raw, None, None);
      } else if kind == Add {
        newNo := newNo + 1;
        line := DiffLine(kind, raw[1..], None, Some(newNo));
      } else if kind == Remove {
        oldNo := oldNo + 1;
        line := DiffLine(kind, raw[1..], Some(oldNo), None);
      } else if kind == Context && StartsWith(raw, " ") {
        oldNo := oldNo + 1;
        newNo := newNo + 1;
        line := DiffLine(kind, raw[1..], Some(oldNo), Some(newNo));
      } else {
        line := DiffLine(kind, raw, None, None);
      }
      LineRepresents(line, raws, i, o, n);
      lines := lines + [line];
    }
  }

  lemma LineRepresents(line: DiffLine, raws: seq<string>, i: nat, oldNo: nat, newNo: nat)
    requires i < |raws| && oldNo == Count(IsOldLine, raws[..i]) && newNo == Count(IsNewLine, raws[..i])
    requires var raw := raws[i];
      line.kind == Classify(raw) && line == match Classify(raw)
        case Add => DiffLine(Add, raw[1..], None, Some(newNo + 1))
        case Remove => DiffLine(Remove, raw[1..], Some(oldNo + 1), None)
        case Context => if StartsWith(raw, " ") then DiffLine(Context, raw[1..], Some(oldNo + 1), Some(newNo + 1))
                        else DiffLine(Context, raw, None, None)
        case kind => DiffLine(kind, raw, None, None)
    ensures Represents(line, raws, i)
  {
    var raw := raws[i];
    if raw != "" {
      assert raw == [raw[0]] + raw[1..] && raw[..1] == [raw[0]];
    }
  }

  function UpTo(n: nat): seq<nat> { seq(n, k requires 0 <= k < n => k + 1) }

  function OldNumbers(lines: seq<DiffLine>): seq<nat> {
    if lines == [] then []
    else
      var earlier, last := OldNumbers(lines[..|lines| - 1]), lines[|lines| - 1];
      if last.oldNo.Some? then earlier + [last.oldNo.value] else earlier
  }

  function NewNumbers(lines: seq<DiffLine>): seq<nat> {
    if lines == [] then []
    else
      var earlier, last := NewNumbers(lines[..|lines| - 1]), lines[|lines| - 1];
      if last.newNo.Some? then earlier + [last.newNo.value] else earlier
  }

  /** The numbers of each side, read top to bottom, are 1, 2, 3, ... across all hunks. */
  lemma {:induction false} NumbersRunOn(lines: seq<DiffLine>, raws: seq<string>)
    requires |lines| <= |raws| && forall i | 0 <= i < |lines| :: Represents(lines[i], raws, i)
    ensures OldNumbers(lines) == UpTo(Count(IsOldLine, raws[..|lines|]))
    ensures NewNumbers(lines) == UpTo(Count(IsNewLine, raws[..|lines|]))
  {
    hide Classify; hide Rebuild; hide IsOldLine; hide IsNewLine;
    if lines != [] {
      var n := |lines| - 1;
      NumbersRunOn(lines[..n], raws);
      assert Represents(lines[n], raws, n);
      hide Represents; hide UpTo;
      CountOneMore(IsOldLine, raws, n);
      CountOneMore(IsNewLine, raws, n);
      UpToNext(Count(IsOldLine, raws[..n]));
      UpToNext(Count(IsNewLine, raws[..n]));
      hide Count;
    }
  }

  lemma CountOneMore(p: string -> bool, raws: seq<string>, n: nat)
    requires n < |raws|
    ensures Count(p, raws[..n + 1]) == Count(p, raws[..n]) + if p(raws[n]) then 1 else 0
  {
    assert raws[..n + 1][..n] == raws[..n];
  }

  lemma UpToNext(n: nat)
    ensures UpTo(n + 1) == UpTo(n) + [n + 1]
  {
  }

  // ----- Reading both sides back from a patch -----

  /** A line of a hunk: kept, removed or added. */
  datatype Edit = Keep(text: string) | Cut(text: string) | Put(text: string)

  function RawOf(e: Edit): string {
    match e
    case Keep(text) => " " + text
    case Cut(text) => "-" + text
    case Put(text) => "+" + text
  }

  function Raws(edits: seq<Edit>): seq<string> {
    seq(|edits|, i requires 0 <= i < |edits| => RawOf(edits[i]))
  }

  function OldSide(edits: seq<Edit>): seq<string> {
    if edits == [] then []
    else
      var earlier, last := OldSide(edits[..|edits| - 1]), edits[|edits| - 1];
      if last.Put? then earlier else earlier + [last.text]
  }

  function NewSide(edits: seq<Edit>): seq<string> {
    if edits == [] then []
    else
      var earlier, last := NewSide(edits[..|edits| - 1]), edits[|edits| - 1];
      if last.Cut? then earlier else earlier + [last.text]
  }

  /** The texts of the lines with a number on the old side. */
  function OldTexts(lines: seq<DiffLine>): seq<string> {
    if lines == [] then []
    else
      var earlier, last := OldTexts(lines[..|lines| - 1]), lines[|lines| - 1];
      if last.oldNo.Some? then earlier + [last.text] else earlier
  }

  function NewTexts(lines: seq<DiffLine>): seq<string> {
    if lines == [] then []
    else
      var earlier, last := NewTexts(lines[..|lines| - 1]), lines[|lines| - 1];
      if last.newNo.Some? then earlier + [last.text] else earlier
  }

  /** The sign of the line does not run together with its text into a file header. */
  predicate SignStandsOut(e: Edit) {
    && (e.Cut? ==> !StartsWith(e.text, "--"))
    && (e.Put? ==> !StartsWith(e.text, "++"))
  }

  /** What a parsed line says about its patch line alone. */
  predicate Reads(line: DiffLine, raw: string) {
    && line.kind == Classify(raw) && Rebuild(line) == raw
    && (line.oldNo.Some? <==> IsOldLine(raw)) && (line.newNo.Some? <==> IsNewLine(raw))
  }

  lemma EditIsRead(line: DiffLine, e: Edit)
    requires Reads(line, RawOf(e))
    ensures line.oldNo.Some? <==> !e.Put? && (e.Cut? ==> SignStandsOut(e))
    ensures line.newNo.Some? <==> !e.Cut? && (e.Put? ==> SignStandsOut(e))
    ensures line.oldNo.Some? || line.newNo.Some? ==> line.text == e.text
  {
    var raw, text := RawOf(e), e.text;
    assert raw[0] == match e case Keep(_) => ' ' case Cut(_) => '-' case Put(_) => '+';
    assert raw[1..] == text && raw == [raw[0]] + text;
    assert raw[..1] == [raw[0]];
    assert |raw| >= 3 ==> raw[..3] == [raw[0]] + text[..2];
    assert StartsWith(raw, "---") <==> e.Cut? && StartsWith(text, "--") by {
      if e.Cut? && StartsWith(text, "--") { assert raw[..3] == "-" + text[..2] == "---"; }
      if StartsWith(raw, "---") { assert text[..2] == raw[..3][1..] == "--"; }
    }
    assert StartsWith(raw, "+++") <==> e.Put? && StartsWith(text, "++") by {
      if e.Put? && StartsWith(text, "++") { assert raw[..3] == "+" + text[..2] == "+++"; }
      if StartsWith(raw, "+++") { assert text[..2] == raw[..3][1..] == "++"; }
    }
    FirstCharDiffers(raw, "diff --git");
    FirstCharDiffers(raw, "@@");
    assert Rebuild(line)[1..] == raw[1..];
  }

  lemma FirstCharDiffers(s: string, prefix: string)
    requires s != "" && prefix != "" && s[0] != prefix[0]
    ensures !StartsWith(s, prefix)
  {
    assert |prefix| <= |s| ==> s[..|prefix|][0] == s[0];
  }

  lemma {:induction false} SidesOfLines(lines: seq<DiffLine>, edits: seq<Edit>)
    requires |lines| == |edits| && forall i | 0 <= i < |lines| :: Reads(lines[i], RawOf(edits[i]))
    ensures |OldTexts(lines)| <= |OldSide(edits)| && |NewTexts(lines)| <= |NewSide(edits)|
    ensures (forall i | 0 <= i < |edits| :: SignStandsOut(edits[i])) ==>
      OldTexts(lines) == OldSide(edits) && NewTexts(lines) == NewSide(edits)
    ensures |OldTexts(lines)| == |OldSide(edits)| && |NewTexts(lines)| == |NewSide(edits)| ==>
      forall i | 0 <= i < |edits| :: SignStandsOut(edits[i])
  {
    hide Reads; hide SignStandsOut; hide RawOf;
    if lines != [] {
      var n := |lines| - 1;
      SidesOfLines(lines[..n], edits[..n]);
      EditIsRead(lines[n], edits[n]);
      KeptStandsOut(edits[n]);
    }
  }

  lemma KeptStandsOut(e: Edit)
    ensures e.Keep? ==> SignStandsOut(e)
  {
  }

  /**
   Both versions can be read back from the parsed lines of a hunk, in order, if and only if no removed
   line starts with two dashes and no added one with two pluses.
   */
  lemma SidesAreReadBack(lines: seq<DiffLine>, edits: seq<Edit>)
    requires |lines| == |edits| && forall i | 0 <= i < |lines| :: Represents(lines[i], Raws(edits), i)
    ensures OldTexts(lines) == OldSide(edits) && NewTexts(lines) == NewSide(edits) <==>
      forall e | e in edits :: SignStandsOut(e)
  {
    hide Classify; hide Rebuild; hide IsOldLine; hide IsNewLine; hide SignStandsOut; hide RawOf;
    hide OldTexts; hide NewTexts; hide OldSide; hide NewSide;
    forall i | 0 <= i < |lines| ensures Reads(lines[i], RawOf(edits[i])) {
      assert Represents(lines[i], Raws(edits), i);
    }
    SidesOfLines(lines, edits);
    assert forall i | 0 <= i < |edits| :: edits[i] in edits;
  }
}
