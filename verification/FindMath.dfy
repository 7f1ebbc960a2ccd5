/** Finding formulas in a note's text, counted in UTF-16 code units: how a text is tiled, and the scanner. */
module FindMath {
  import opened Common

  type Unit = u: int | 0 <= u < 0x1_0000
  type Text = seq<Unit>

  const NEWLINE: Unit := 0x0A
  const SPACE: Unit := 0x20
  const DOLLAR: Unit := 0x24
  const BACKSLASH: Unit := 0x5C
  const BACKTICK: Unit := 0x60
  const TILDE: Unit := 0x7E

  /** The white space of a regular expression's \s. */
  predicate IsSpace(u: Unit) {
    || 0x09 <= u <= 0x0D || u == SPACE || u == 0xA0 || u == 0x1680 || 0x2000 <= u <= 0x200A
    || u == 0x2028 || u == 0x2029 || u == 0x202F || u == 0x205F || u == 0x3000 || u == 0xFEFF
  }

  predicate IsBlank(text: Text, i: nat) {
    i >= |text| || IsSpace(text[i])
  }

  datatype Kind = Inline | Display

  datatype MathRange = MathRange(from: nat, to: nat, content: Text, kind: Kind)

  // ---------- What a formula is ----------

  predicate DoubleDollar(text: Text, i: nat) {
    i + 1 < |text| && text[i] == DOLLAR && text[i + 1] == DOLLAR
  }

  /** The run of backslashes that ends just before i and does not reach below start. */
  function Slashes(text: Text, start: nat, i: nat): nat
    requires i <= |text|
  {
    if i <= start || text[i - 1] != BACKSLASH then 0 else 1 + Slashes(text, start, i - 1)
  }

  /** The unit is not the second half of an escape. */
  predicate Unescaped(text: Text, start: nat, i: nat)
    requires i <= |text|
  {
    Slashes(text, start, i) % 2 == 0
  }

  /** A closing delimiter stands at i. */
  predicate Closes(text: Text, start: nat, kind: Kind, i: nat) {
    && i < |text| && Unescaped(text, start, i)
    && (if kind == Display then DoubleDollar(text, i)
        else text[i] == DOLLAR && (i == 0 || !IsBlank(text, i - 1)))
  }

  /** A line ends at i, which no inline formula survives. */
  predicate Breaks(text: Text, start: nat, kind: Kind, i: nat) {
    kind == Inline && i < |text| && text[i] == NEWLINE && Unescaped(text, start, i)
  }

  function Width(kind: Kind): nat {
    if kind == Display then 2 else 1
  }

  /** The formula that opens at a dollar: up to its first closing delimiter, with
      no line end before it and no blank after the opening one if it is inline. */
  ghost predicate IsFormula(text: Text, open: nat, r: MathRange) {
    var start := open + Width(r.kind);
    && r.from == open < |text| && text[open] == DOLLAR
    && (r.kind == Display <==> DoubleDollar(text, open))
    && (r.kind == Inline ==> !IsBlank(text, start))
    && start + Width(r.kind) <= r.to <= |text|
    && Closes(text, start, r.kind, r.to - Width(r.kind))
    && (forall p :: start <= p < r.to - Width(r.kind) ==>
        !Closes(text, start, r.kind, p) && !Breaks(text, start, r.kind, p))
    && r.content == text[start..r.to - Width(r.kind)]
  }

  lemma FormulaUnique(text: Text, open: nat, r: MathRange, r': MathRange)
    requires IsFormula(text, open, r) && IsFormula(text, open, r')
    ensures r == r'
  {
    var start, c, c' := open + Width(r.kind), r.to - Width(r.kind), r'.to - Width(r'.kind);
    assert Closes(text, start, r.kind, c) && Closes(text, start, r.kind, c');
  }

  method FormulaAt(text: Text, open: nat) returns (r: Option<MathRange>)
    requires open < |text| && text[open] == DOLLAR
    ensures r.Some? ==> IsFormula(text, open, r.value)
    ensures r.None? ==> forall f :: !IsFormula(text, open, f)
  {
    var kind := if DoubleDollar(text, open) then Display else Inline;
    var start := open + Width(kind);
    if kind == Inline && IsBlank(text, start) {
      return None;
    }
    var i := start;
    while i < |text|
      invariant start <= i
      invariant i <= |text| ==> Unescaped(text, start, i)
      invariant forall p :: start <= p < i && p < |text| ==>
                !Closes(text, start, kind, p) && !Breaks(text, start, kind, p)
    {
      if text[i] == BACKSLASH {
        i := i + 2;
        continue;
      }
      if kind == Display {
        if !DoubleDollar(text, i) {
          i := i + 1;
          continue;
        }
        return Some(MathRange(open, i + 2, text[start..i], Display));
      }
      if text[i] == NEWLINE {
        assert Breaks(text, start, kind, i);
        return None;
      }
      if text[i] != DOLLAR || IsBlank(text, i - 1) {
        i := i + 1;
        continue;
      }
      return Some(MathRange(open, i + 1, text[start..i], Inline));
    }
    r := None;
  }

  // ---------- What a code span is ----------

  function RunLength(text: Text, start: nat): (n: nat)
    ensures start + n <= |text| || n == 0
    decreases |text| - start
  {
    if start < |text| && text[start] == BACKTICK then 1 + RunLength(text, start + 1) else 0
  }

  lemma {:induction false} RunIsMaximal(text: Text, start: nat)
    ensures var n := RunLength(text, start);
            && (forall i :: start <= i < start + n ==> i < |text| && text[i] == BACKTICK)
            && (start + n < |text| ==> text[start + n] != BACKTICK)
    decreases |text| - start
  {
    if start < |text| && text[start] == BACKTICK {
      RunIsMaximal(text, start + 1);
    }
  }

  method CountRun(text: Text, start: nat) returns (n: nat)
    requires start <= |text|
    ensures n == RunLength(text, start)
  {
    var end := start;
    while end < |text| && text[end] == BACKTICK
      invariant start <= end <= |text|
      invariant RunLength(text, start) == (end - start) + RunLength(text, end)
    {
      end := end + 1;
    }
    n := end - start;
  }

  /** A whole run of exactly n backticks stands at c, no part of a longer one. */
  predicate RunAt(text: Text, n: nat, c: nat) {
    0 < c < |text| && text[c] == BACKTICK && text[c - 1] != BACKTICK && RunLength(text, c) == n
  }

  /** The code span whose n opening backticks end at `start` ends at `end`. */
  ghost predicate SpanEnds(text: Text, start: nat, n: nat, end: nat) {
    && start + n <= end <= |text| && RunAt(text, n, end - n)
    && (forall c :: start <= c < end - n ==> !RunAt(text, n, c))
  }

  method AfterCodeSpan(text: Text, start: nat, n: nat) returns (end: int)
    requires 0 < start <= |text| && n > 0
    requires start < |text| ==> text[start] != BACKTICK
    ensures end >= 0 ==> SpanEnds(text, start, n, end)
    ensures end < 0 ==> end == -1 && forall c :: start <= c ==> !RunAt(text, n, c)
  {
    var i := start;
    while i < |text|
      invariant start <= i <= |text|
      invariant i < |text| && text[i] == BACKTICK ==> i > start && text[i - 1] != BACKTICK
      invariant forall c :: start <= c < i ==> !RunAt(text, n, c)
    {
      if text[i] != BACKTICK {
        i := i + 1;
        continue;
      }
      var length := CountRun(text, i);
      RunIsMaximal(text, i);
      if length == n {
        return i + length;
      }
      i := i + length;
    }
    end := -1;
  }

  // ---------- What a fence line is ----------

  datatype Marker = Marker(unit: Unit, length: nat)

  function Leading(line: Text, u: Unit): (n: nat)
    ensures n <= |line|
  {
    if line != [] && line[0] == u then 1 + Leading(line[1..], u) else 0
  }

  /** The match of a fence at the start of a line: up to three spaces, then a run
      of three or more backticks or of three or more tildes. */
  function FenceMarker(line: Text): Option<Marker> {
    var indent := Leading(line, SPACE);
    if indent > 3 || indent == |line| then None
    else
      var u, n := line[indent], Leading(line[indent..], line[indent]);
      if (u == BACKTICK || u == TILDE) && n >= 3 then Some(Marker(u, n)) else None
  }

  function LineEnd(text: Text, i: nat): (e: nat)
    requires i <= |text|
    ensures i <= e <= |text|
    ensures forall p :: i <= p < e ==> text[p] != NEWLINE
    ensures e < |text| ==> text[e] == NEWLINE
    decreases |text| - i
  {
    if i == |text| || text[i] == NEWLINE then i else LineEnd(text, i + 1)
  }

  function NextLine(text: Text, i: nat): nat
    requires i <= |text|
  {
    if LineEnd(text, i) == |text| then |text| else LineEnd(text, i) + 1
  }

  function MarkerAt(text: Text, i: nat): Option<Marker>
    requires i <= |text|
  {
    FenceMarker(text[i..LineEnd(text, i)])
  }

  ghost predicate FenceAt(text: Text, i: nat, s: nat, u: Unit, n: nat) {
    && s <= 3 && i + s + n <= |text|
    && (forall p :: i <= p < i + s ==> text[p] == 0x20)
    && (forall p :: i + s <= p < i + s + n ==> text[p] == u)
    && (i + s + n < |text| ==> text[i + s + n] != u)
  }

  /** A fence opens or may close at i: at most three spaces, then exactly n >= 3
      backticks or tildes, and then something else or the end. */
  ghost predicate FenceStands(text: Text, i: nat, u: Unit, n: nat) {
    && n >= 3 && (u == 0x60 || u == 0x7E)
    && exists s: nat :: FenceAt(text, i, s, u, n)
  }

  lemma {:induction false} LeadingIsRun(line: Text, u: Unit)
    ensures var n := Leading(line, u);
            (forall p :: 0 <= p < n ==> line[p] == u) && (n < |line| ==> line[n] != u)
  {
    if line != [] && line[0] == u {
      LeadingIsRun(line[1..], u);
    }
  }

  lemma {:induction false} LeadingOf(line: Text, u: Unit, n: nat)
    requires n <= |line| && (forall p :: 0 <= p < n ==> line[p] == u) && (n < |line| ==> line[n] != u)
    ensures Leading(line, u) == n
  {
    if n > 0 {
      LeadingOf(line[1..], u, n - 1);
    }
  }

  lemma MarkerStands(text: Text, i: nat, u: Unit, n: nat)
    requires i <= |text| && MarkerAt(text, i) == Some(Marker(u, n))
    ensures FenceStands(text, i, u, n)
  {
    var line := text[i..LineEnd(text, i)];
    var s := Leading(line, SPACE);
    LeadingIsRun(line, SPACE);
    LeadingIsRun(line[s..], u);
    assert forall p :: i <= p < i + s ==> text[p] == line[p - i];
    assert forall p :: i + s <= p < i + s + n ==> text[p] == line[s..][p - i - s];
    assert FenceAt(text, i, s, u, n);
  }

  lemma StandingMarks(text: Text, i: nat, s: nat, u: Unit, n: nat)
    requires i <= |text| && n >= 3 && (u == 0x60 || u == 0x7E) && FenceAt(text, i, s, u, n)
    ensures MarkerAt(text, i) == Some(Marker(u, n))
  {
    var e := LineEnd(text, i);
    assert i + s + n <= e by {
      assert forall p :: i <= p < i + s + n ==> text[p] != NEWLINE;
    }
    var line := text[i..e];
    assert forall p :: 0 <= p < s + n ==> line[p] == text[i + p];
    LeadingOf(line, SPACE, s);
    var rest := line[s..];
    assert rest[0] == u;
    LeadingOf(rest, u, n);
  }

  /** What the scanner takes for a fence, unit by unit. */
  lemma MarkerMeans(text: Text, i: nat, u: Unit, n: nat)
    requires i <= |text|
    ensures MarkerAt(text, i) == Some(Marker(u, n)) <==> FenceStands(text, i, u, n)
  {
    if MarkerAt(text, i) == Some(Marker(u, n)) {
      MarkerStands(text, i, u, n);
    }
    if FenceStands(text, i, u, n) {
      var s: nat :| FenceAt(text, i, s, u, n);
      StandingMarks(text, i, s, u, n);
    }
  }

  predicate AtLineStart(text: Text, i: nat) {
    i == 0 || (i <= |text| && text[i - 1] == NEWLINE)
  }

  /** The state of the fence after a line of it. */
  function AfterFenceLine(fence: Option<Marker>, marker: Option<Marker>): Option<Marker> {
    if fence.None? then marker
    else if marker.Some? && marker.value.unit == fence.value.unit && marker.value.length >= fence.value.length then None
    else fence
  }

  // ---------- The tiling ----------

  datatype Tile =
    | FenceLine(from: nat, to: nat)
    | Escape(from: nat, to: nat)
    | CodeSpan(from: nat, to: nat)
    | LooseTicks(from: nat, to: nat)
    | Formula(range: MathRange)
    | Plain(from: nat, to: nat)
  {
    function Start(): nat {
      if Formula? then range.from else from
    }

    function End(): nat {
      if Formula? then range.to else to
    }
  }

  /** A line of the text belongs to a fence: it is inside one or opens one. */
  predicate Fenced(text: Text, fence: Option<Marker>, i: nat)
    requires i <= |text|
  {
    AtLineStart(text, i) && (fence.Some? || MarkerAt(text, i).Some?)
  }

  /** What may stand at a position, given the fence that is open there. */
  ghost predicate IsTile(text: Text, fence: Option<Marker>, t: Tile) {
    var i := t.Start();
    && i < |text|
    && (t.FenceLine? <==> Fenced(text, fence, i))
    && (match t
        case FenceLine(_, to) => to == NextLine(text, i)
        case Escape(_, to) =>
          && text[i] == BACKSLASH
          && to == Min(|text|, if i + 1 < |text| && text[i + 1] == NEWLINE then i + 1 else i + 2)
        case CodeSpan(_, to) => text[i] == BACKTICK && SpanEnds(text, i + RunLength(text, i), RunLength(text, i), to)
        case LooseTicks(_, to) =>
          && text[i] == BACKTICK && to == i + RunLength(text, i)
          && (forall c :: to <= c ==> !RunAt(text, RunLength(text, i), c))
        case Formula(r) => IsFormula(text, i, r)
        case Plain(_, to) =>
          && to == i + 1 && text[i] != BACKSLASH && text[i] != BACKTICK
          && (forall r :: !IsFormula(text, i, r)))
  }

  /** The fence open after the tiles so far, which change it line by line. */
  function FenceAfter(text: Text, tiles: seq<Tile>): Option<Marker> {
    if tiles == [] then None
    else
      var before, last := FenceAfter(text, tiles[..|tiles| - 1]), tiles[|tiles| - 1];
      if last.FenceLine? && last.from <= |text| then AfterFenceLine(before, MarkerAt(text, last.from)) else before
  }

  function Reached(tiles: seq<Tile>): nat {
    if tiles == [] then 0 else tiles[|tiles| - 1].End()
  }

  /** Tiles laid end to end from the start of the text. */
  ghost predicate IsPath(text: Text, tiles: seq<Tile>) {
    tiles != [] ==>
      var front, last := tiles[..|tiles| - 1], tiles[|tiles| - 1];
      IsPath(text, front) && last.Start() == Reached(front) && IsTile(text, FenceAfter(text, front), last)
  }

  ghost predicate IsTiling(text: Text, tiles: seq<Tile>) {
    IsPath(text, tiles) && Reached(tiles) == |text|
  }

  function Formulas(tiles: seq<Tile>): seq<MathRange> {
    if tiles == [] then []
    else
      var last := tiles[|tiles| - 1];
      Formulas(tiles[..|tiles| - 1]) + (if last.Formula? then [last.range] else [])
  }

  lemma TileAdvances(text: Text, fence: Option<Marker>, t: Tile)
    requires IsTile(text, fence, t)
    ensures t.Start() < t.End() <= |text|
  {
    RunIsMaximal(text, t.Start());
    hide RunLength;
    hide RunAt;
    hide Closes;
    hide Breaks;
    hide Fenced;
  }

  /** What a tile's first units say about it. */
  lemma TileOpens(text: Text, fence: Option<Marker>, t: Tile)
    requires IsTile(text, fence, t)
    ensures t.Formula? ==> text[t.Start()] == DOLLAR
    ensures t.CodeSpan? ==> exists c :: t.from + RunLength(text, t.from) <= c && RunAt(text, RunLength(text, t.from), c)
  {
    hide RunAt;
    if t.CodeSpan? {
      var n := RunLength(text, t.from);
      assert RunAt(text, n, t.to - n);
    }
  }

  lemma SpanUnique(text: Text, start: nat, n: nat, end: nat, end': nat)
    requires SpanEnds(text, start, n, end) && SpanEnds(text, start, n, end')
    ensures end == end'
  {
    assert RunAt(text, n, end - n) && RunAt(text, n, end' - n);
  }

  lemma TileUnique(text: Text, fence: Option<Marker>, t: Tile, t': Tile)
    requires IsTile(text, fence, t) && IsTile(text, fence, t') && t.Start() == t'.Start()
    ensures t == t'
  {
    hide IsFormula;
    hide SpanEnds;
    hide RunAt;
    hide RunLength;
    hide Fenced;
    TileOpens(text, fence, t);
    TileOpens(text, fence, t');
    var i := t.Start();
    if t.Formula? && t'.Formula? {
      FormulaUnique(text, i, t.range, t'.range);
    } else if t.CodeSpan? && t'.CodeSpan? {
      SpanUnique(text, i + RunLength(text, i), RunLength(text, i), t.to, t'.to);
    }
  }

  lemma {:induction false} PathFront(text: Text, tiles: seq<Tile>, n: nat)
    requires IsPath(text, tiles) && n <= |tiles|
    ensures IsPath(text, tiles[..n])
    decreases |tiles|
  {
    if n < |tiles| {
      var front := tiles[..|tiles| - 1];
      PathFront(text, front, n);
      assert front[..n] == tiles[..n];
    } else {
      assert tiles[..n] == tiles;
    }
  }

  lemma {:induction false} PathsAgree(text: Text, a: seq<Tile>, b: seq<Tile>, n: nat)
    requires IsPath(text, a) && IsPath(text, b) && n <= |a| && n <= |b|
    ensures a[..n] == b[..n]
    decreases n
  {
    hide IsTile;
    hide FenceAfter;
    if n > 0 {
      PathsAgree(text, a, b, n - 1);
      PathFront(text, a, n);
      PathFront(text, b, n);
      assert a[..n][..n - 1] == a[..n - 1] && b[..n][..n - 1] == b[..n - 1];
      TileUnique(text, FenceAfter(text, a[..n - 1]), a[n - 1], b[n - 1]);
    }
  }

  lemma LastTile(text: Text, tiles: seq<Tile>)
    requires IsPath(text, tiles) && tiles != []
    ensures Reached(tiles[..|tiles| - 1]) < Reached(tiles) <= |text|
  {
    var front := tiles[..|tiles| - 1];
    TileAdvances(text, FenceAfter(text, front), tiles[|tiles| - 1]);
  }

  lemma LongerPath(text: Text, a: seq<Tile>, b: seq<Tile>)
    requires IsPath(text, a) && IsPath(text, b) && |a| < |b|
    ensures Reached(a) < |text|
  {
    hide IsPath;
    PathsAgree(text, a, b, |a|);
    var front := b[..|a| + 1];
    PathFront(text, b, |a| + 1);
    assert front[..|a|] == a;
    LastTile(text, front);
  }

  /** The text splits into tiles in one way only. */
  lemma TilingUnique(text: Text, a: seq<Tile>, b: seq<Tile>)
    requires IsTiling(text, a) && IsTiling(text, b)
    ensures a == b
  {
    hide IsPath;
    if |a| < |b| {
      LongerPath(text, a, b);
    } else if |b| < |a| {
      LongerPath(text, b, a);
    } else {
      PathsAgree(text, a, b, |a|);
    }
  }

  // ---------- The scanner ----------

  method SkipTicks(text: Text, i: nat) returns (t: Tile)
    requires i < |text| && text[i] == BACKTICK
    ensures t.Start() == i && !t.FenceLine? && !t.Formula?
    ensures forall fence :: !Fenced(text, fence, i) ==> IsTile(text, fence, t)
  {
    var run := CountRun(text, i);
    RunIsMaximal(text, i);
    var end := AfterCodeSpan(text, i + run, run);
    if end == -1 {
      t := LooseTicks(i, i + run);
    } else {
      t := CodeSpan(i, end);
    }
  }

  lemma OnlyDollarsOpen(text: Text, i: nat)
    requires i < |text| && text[i] != DOLLAR
    ensures forall r :: !IsFormula(text, i, r)
  {
  }

  lemma FormulaStart(text: Text, i: nat, r: MathRange)
    requires IsFormula(text, i, r)
    ensures r.from == i
  {
  }

  /** The part of the scan outside fence lines: one tile, whatever it is. */
  method ScanTile(text: Text, i: nat) returns (t: Tile)
    requires i < |text|
    ensures t.Start() == i && !t.FenceLine?
    ensures forall fence :: !Fenced(text, fence, i) ==> IsTile(text, fence, t)
  {
    hide IsFormula;
    hide SpanEnds;
    if text[i] == BACKSLASH {
      // Not past a line end, or a fence on the next line would be missed.
      var next := if i + 1 < |text| && text[i + 1] == NEWLINE then i + 1 else i + 2;
      return Escape(i, Min(|text|, next));
    }
    if text[i] == BACKTICK {
      t := SkipTicks(text, i);
      return;
    }
    if text[i] == DOLLAR {
      var formula := FormulaAt(text, i);
      if formula.Some? {
        assert formula.value.from == i by { FormulaStart(text, i, formula.value); }
        return Formula(formula.value);
      }
    } else {
      OnlyDollarsOpen(text, i);
    }
    t := Plain(i, i + 1);
  }

  lemma EmptyPath(text: Text)
    ensures IsPath(text, []) && Reached([]) == 0 && FenceAfter(text, []) == None && Formulas([]) == []
  {
  }

  lemma LineTileEnds(text: Text, fence: Option<Marker>, t: Tile)
    requires IsTile(text, fence, t)
    ensures t.FenceLine? ==> t.End() == |text| || AtLineStart(text, t.End())
    ensures t.Start() < |text|
  {
    hide IsFormula;
    hide SpanEnds;
    hide RunAt;
  }

  lemma FenceGrows(text: Text, tiles: seq<Tile>, t: Tile)
    requires t.Start() <= |text|
    ensures FenceAfter(text, tiles + [t]) ==
            (if t.FenceLine? then AfterFenceLine(FenceAfter(text, tiles), MarkerAt(text, t.from))
             else FenceAfter(text, tiles))
  {
    hide AfterFenceLine;
    hide MarkerAt;
    assert (tiles + [t])[..|tiles|] == tiles;
  }

  lemma FormulasGrow(tiles: seq<Tile>, t: Tile)
    ensures Formulas(tiles + [t]) == Formulas(tiles) + (if t.Formula? then [t.range] else [])
  {
    assert (tiles + [t])[..|tiles|] == tiles;
  }

  lemma PathGrows(text: Text, tiles: seq<Tile>, t: Tile)
    requires IsPath(text, tiles) && t.Start() == Reached(tiles) && IsTile(text, FenceAfter(text, tiles), t)
    ensures IsPath(text, tiles + [t]) && Reached(tiles + [t]) == t.End()
    ensures FenceAfter(text, tiles + [t]) ==
            (if t.FenceLine? then AfterFenceLine(FenceAfter(text, tiles), MarkerAt(text, t.from))
             else FenceAfter(text, tiles))
    ensures Formulas(tiles + [t]) == Formulas(tiles) + (if t.Formula? then [t.range] else [])
    ensures t.Start() < t.End() <= |text|
    ensures t.FenceLine? ==> t.End() == |text| || AtLineStart(text, t.End())
  {
    hide IsTile;
    hide LineEnd;
    var fence := FenceAfter(text, tiles);
    TileAdvances(text, fence, t);
    LineTileEnds(text, fence, t);
    FenceGrows(text, tiles, t);
    FormulasGrow(tiles, t);
    hide FenceAfter;
    hide Formulas;
    assert (tiles + [t])[..|tiles|] == tiles;
  }

  /** The scanner lays the tiling of the text, of which there is only one, and
      answers its formulas. */
  method FindMath(text: Text) returns (ranges: seq<MathRange>)
    ensures exists tiles :: IsTiling(text, tiles) && ranges == Formulas(tiles)
  {
    hide IsPath;
    hide FenceAfter;
    hide Formulas;
    EmptyPath(text);
    ranges := [];
    ghost var tiles: seq<Tile> := [];
    var fence: Option<Marker> := None;
    var i := 0;
    while i < |text|
      invariant IsPath(text, tiles) && Reached(tiles) == i <= |text|
      invariant fence == FenceAfter(text, tiles) && (fence.Some? && i < |text| ==> AtLineStart(text, i))
      invariant ranges == Formulas(tiles)
      decreases |text| - i
    {
      if AtLineStart(text, i) {
        var nextLine := NextLine(text, i);
        var marker := MarkerAt(text, i);
        if fence.Some? || marker.Some? {
          PathGrows(text, tiles, FenceLine(i, nextLine));
          tiles := tiles + [FenceLine(i, nextLine)];
          if fence.None? {
            fence := marker;
          } else if marker.Some? && marker.value.unit == fence.value.unit && marker.value.length >= fence.value.length {
            fence := None;
          }
          i := nextLine;
          continue;
        }
      }
      var tile := ScanTile(text, i);
      hide IsTile;
      PathGrows(text, tiles, tile);
      tiles := tiles + [tile];
      if tile.Formula? {
        ranges := ranges + [tile.range];
      }
      i := tile.End();
    }
    assert IsTiling(text, tiles);
  }

  // ---------- What the answer promises ----------

  /** The ranges lie in the text one after another, and each is a formula. */
  lemma {:induction false} RangesInOrder(text: Text, tiles: seq<Tile>, j: nat)
    requires IsPath(text, tiles) && j < |Formulas(tiles)|
    ensures var rs := Formulas(tiles);
            && IsFormula(text, rs[j].from, rs[j]) && rs[j].from < rs[j].to <= Reached(tiles) <= |text|
            && (forall i :: 0 <= i < j ==> rs[i].to <= rs[j].from)
    decreases |tiles|
  {
    hide IsFormula;
    hide FenceAfter;
    var front, last := tiles[..|tiles| - 1], tiles[|tiles| - 1];
    TileAdvances(text, FenceAfter(text, front), last);
    if j < |Formulas(front)| {
      RangesInOrder(text, front, j);
    } else {
      forall i | 0 <= i < j
        ensures Formulas(front)[i].to <= Reached(front)
      {
        RangesInOrder(text, front, i);
      }
    }
  }

  /** Each formula tile is answered, and nothing else is. */
  lemma {:induction false} FormulaTilesAnswered(tiles: seq<Tile>, r: MathRange)
    ensures r in Formulas(tiles) <==> Formula(r) in tiles
  {
    if tiles != [] {
      var front, last := tiles[..|tiles| - 1], tiles[|tiles| - 1];
      FormulaTilesAnswered(front, r);
      assert tiles == front + [last];
    }
  }

  lemma {:induction false} FenceAtLineStart(text: Text, tiles: seq<Tile>)
    requires IsPath(text, tiles)
    ensures FenceAfter(text, tiles).Some? ==> Reached(tiles) == |text| || AtLineStart(text, Reached(tiles))
    decreases |tiles|
  {
    if tiles != [] {
      FenceAtLineStart(text, tiles[..|tiles| - 1]);
    }
  }

  /** No formula opens inside an open fence. */
  lemma NoneInsideFence(text: Text, tiles: seq<Tile>, m: nat)
    requires IsPath(text, tiles) && m < |tiles| && tiles[m].Formula?
    ensures FenceAfter(text, tiles[..m]) == None
  {
    PathFront(text, tiles, m + 1);
    var path := tiles[..m + 1];
    assert path[..m] == tiles[..m];
    FenceAtLineStart(text, tiles[..m]);
    hide IsFormula;
  }

  /** What stands in an inline formula: something, with no blank at either end,
      and a line end only where a backslash escapes it. */
  lemma InlineContent(text: Text, open: nat, r: MathRange)
    requires IsFormula(text, open, r) && r.kind == Inline
    ensures var c := r.content;
            && c != [] && !IsSpace(c[0]) && !IsSpace(c[|c| - 1])
            && (forall i :: 0 <= i < |c| && c[i] == NEWLINE ==> i > 0 && c[i - 1] == BACKSLASH)
  {
    var start, close := open + 1, r.to - 1;
    assert !DoubleDollar(text, open) && text[close] == DOLLAR;
    forall i | 0 <= i < |r.content| && r.content[i] == NEWLINE
      ensures i > 0 && r.content[i - 1] == BACKSLASH
    {
      assert !Breaks(text, start, Inline, start + i);
      assert !Unescaped(text, start, start + i);
    }
  }

  /** Inline formulas do span lines: a backslash at the end of a line takes the
      line end with it. */
  lemma EscapedLineEndIsCrossed()
    ensures exists text: Text, r :: IsFormula(text, 0, r) && r.kind == Inline && NEWLINE in r.content
  {
    var text: Text := [DOLLAR, 0x61, BACKSLASH, NEWLINE, 0x62, DOLLAR];
    var r := MathRange(0, 6, text[1..5], Inline);
    assert r.content[2] == NEWLINE;
    assert Slashes(text, 1, 2) == 0 && Slashes(text, 1, 3) == 1 && Slashes(text, 1, 4) == 0 && Slashes(text, 1, 5) == 0;
    assert IsFormula(text, 0, r);
  }

  lemma SpacesAre(u: Unit)
    ensures IsSpace(u) <==>
              u in {0x09, 0x0A, 0x0B, 0x0C, 0x0D, 0x20, 0xA0, 0x1680, 0x2000, 0x2001, 0x2002, 0x2003, 0x2004, 0x2005,
                    0x2006, 0x2007, 0x2008, 0x2009, 0x200A, 0x2028, 0x2029, 0x202F, 0x205F, 0x3000, 0xFEFF}
  {
  }

  /** The unit at i is the second half of an escape: so many backslashes, an odd
      number, stand before it and after start. */
  ghost predicate Escaped(text: Text, start: nat, i: nat, n: nat)
    requires i <= |text|
  {
    && n % 2 == 1 && start + n <= i && (forall p :: i - n <= p < i ==> text[p] == 0x5C)
    && (start < i - n ==> text[i - n - 1] != 0x5C)
  }

  ghost predicate SecondHalf(text: Text, start: nat, i: nat)
    requires i <= |text|
  {
    exists n: nat :: Escaped(text, start, i, n)
  }

  lemma {:induction false} SlashesCount(text: Text, start: nat, i: nat)
    requires start <= i <= |text|
    ensures var n := Slashes(text, start, i);
            && start + n <= i && (forall p :: i - n <= p < i ==> text[p] == 0x5C)
            && (start < i - n ==> text[i - n - 1] != 0x5C)
    decreases i
  {
    if start < i && text[i - 1] == BACKSLASH {
      SlashesCount(text, start, i - 1);
    }
  }

  lemma {:induction false} SlashesOf(text: Text, start: nat, i: nat, n: nat)
    requires start + n <= i <= |text| && (forall p :: i - n <= p < i ==> text[p] == 0x5C)
    requires start < i - n ==> text[i - n - 1] != 0x5C
    ensures Slashes(text, start, i) == n
  {
    if n > 0 {
      SlashesOf(text, start, i - 1, n - 1);
    }
  }

  lemma UnescapedMeans(text: Text, start: nat, i: nat)
    requires start <= i <= |text|
    ensures Unescaped(text, start, i) <==> !SecondHalf(text, start, i)
  {
    SlashesCount(text, start, i);
    if !Unescaped(text, start, i) {
      assert Escaped(text, start, i, Slashes(text, start, i));
    }
    if SecondHalf(text, start, i) {
      var n: nat :| Escaped(text, start, i, n);
      SlashesOf(text, start, i, n);
    }
  }

  lemma AllUnescapedMean(text: Text, start: nat)
    ensures forall p :: start <= p <= |text| ==> (Unescaped(text, start, p) <==> !SecondHalf(text, start, p))
  {
    forall p | start <= p <= |text|
      ensures Unescaped(text, start, p) <==> !SecondHalf(text, start, p)
    {
      UnescapedMeans(text, start, p);
    }
  }

  /** What an inline formula is, unit by unit: from a dollar that no dollar and no
      blank follows to the first unescaped dollar that no blank precedes, with no
      unescaped line end before it. */
  lemma InlineMeans(text: Text, open: nat, to: nat, content: Text)
    ensures IsFormula(text, open, MathRange(open, to, content, Inline)) <==>
              && open + 2 < to <= |text| && content == text[open + 1..to - 1]
              && text[open] == 0x24 && text[open + 1] != 0x24 && !IsSpace(text[open + 1])
              && text[to - 1] == 0x24 && !IsSpace(text[to - 2]) && !SecondHalf(text, open + 1, to - 1)
              && (forall p :: open < p < to - 1 && !SecondHalf(text, open + 1, p) ==>
                    text[p] != 0x0A && (text[p] == 0x24 ==> IsSpace(text[p - 1])))
  {
    AllUnescapedMean(text, open + 1);
    hide SecondHalf;
    hide Unescaped;
    hide IsSpace;
    forall p | open < p < |text|
      ensures Closes(text, open + 1, Inline, p) <==>
                text[p] == 0x24 && !SecondHalf(text, open + 1, p) && !IsSpace(text[p - 1])
      ensures Breaks(text, open + 1, Inline, p) <==> text[p] == 0x0A && !SecondHalf(text, open + 1, p)
    {
    }
  }

  /** And a display formula: from two dollars to the first two of which the first
      is not escaped, over any lines. */
  lemma DisplayMeans(text: Text, open: nat, to: nat, content: Text)
    ensures IsFormula(text, open, MathRange(open, to, content, Display)) <==>
              && open + 4 <= to <= |text| && content == text[open + 2..to - 2]
              && text[open] == text[open + 1] == 0x24 && text[to - 2] == text[to - 1] == 0x24
              && !SecondHalf(text, open + 2, to - 2)
              && (forall p :: open + 2 <= p < to - 2 && !SecondHalf(text, open + 2, p) ==>
                    text[p] != 0x24 || text[p + 1] != 0x24)
  {
    hide SecondHalf;
    hide Unescaped;
    hide IsSpace;
    forall p | open + 2 <= p < |text|
      ensures Closes(text, open + 2, Display, p) <==>
                p + 1 < |text| && text[p] == text[p + 1] == 0x24 && !SecondHalf(text, open + 2, p)
    {
      UnescapedMeans(text, open + 2, p);
    }
    hide Closes;
  }

  lemma {:induction false} RunLengthOf(text: Text, start: nat, n: nat)
    requires start + n <= |text| && (forall p :: start <= p < start + n ==> text[p] == 0x60)
    requires start + n < |text| ==> text[start + n] != 0x60
    ensures RunLength(text, start) == n
    decreases n
  {
    if n > 0 {
      RunLengthOf(text, start + 1, n - 1);
    }
  }

  /** Where a code span may end: at a run of exactly so many backticks. */
  lemma RunMeans(text: Text, n: nat, c: nat)
    requires n > 0
    ensures RunAt(text, n, c) <==>
              && 0 < c && c + n <= |text| && text[c - 1] != 0x60
              && (forall p :: c <= p < c + n ==> text[p] == 0x60) && (c + n < |text| ==> text[c + n] != 0x60)
  {
    RunIsMaximal(text, c);
    if c + n <= |text| && (forall p :: c <= p < c + n ==> text[p] == 0x60) && (c + n < |text| ==> text[c + n] != 0x60) {
      RunLengthOf(text, c, n);
    }
  }

  /** Which unit begins which tile outside fence lines, and how far an escape and a
      plain unit reach. */
  lemma TileMeans(text: Text, fence: Option<Marker>, t: Tile)
    requires IsTile(text, fence, t) && !t.FenceLine?
    ensures var i := t.Start();
            && (t.Escape? <==> text[i] == 0x5C) && (t.CodeSpan? || t.LooseTicks? <==> text[i] == 0x60)
            && (t.Formula? ==> text[i] == 0x24) && (t.Plain? ==> t.to == i + 1)
            && (t.Escape? ==> t.to == if i + 1 == |text| || text[i + 1] == 0x0A then i + 1 else i + 2)
            && (t.Plain? && text[i] == 0x24 ==> forall r :: !IsFormula(text, i, r))
  {
    TileOpens(text, fence, t);
    hide IsFormula;
    hide SpanEnds;
    hide RunAt;
    hide Fenced;
  }

  /** Which tiles are fence lines, and how far they reach. */
  lemma FenceLineMeans(text: Text, fence: Option<Marker>, t: Tile)
    requires IsTile(text, fence, t)
    ensures var i := t.Start();
            && i < |text|
            && (t.FenceLine? <==> (i == 0 || text[i - 1] == 0x0A)
                                  && (fence.Some? || exists u, n :: FenceStands(text, i, u, n)))
            && (t.FenceLine? ==>
                  && i < t.to <= |text| && (t.to == |text| || text[t.to - 1] == 0x0A)
                  && (forall p :: i <= p < t.to - 1 ==> text[p] != 0x0A))
  {
    var i := t.Start();
    TileAdvances(text, fence, t);
    forall u, n: nat
      ensures MarkerAt(text, i) == Some(Marker(u, n)) <==> FenceStands(text, i, u, n)
    {
      MarkerMeans(text, i, u, n);
    }
    if MarkerAt(text, i).Some? {
      assert FenceStands(text, i, MarkerAt(text, i).value.unit, MarkerAt(text, i).value.length);
    }
    hide FenceStands;
    hide MarkerAt;
    hide IsFormula;
    hide SpanEnds;
    hide RunAt;
  }

  /** What a line makes of the fence: it opens one, closes it with as many or more
      of the same unit, or is a line of it. */
  lemma FenceLineChanges(text: Text, i: nat, fence: Option<Marker>)
    requires i <= |text|
    ensures var after := AfterFenceLine(fence, MarkerAt(text, i));
            && (fence.None? ==> forall u, n :: after == Some(Marker(u, n)) <==> FenceStands(text, i, u, n))
            && (fence.Some? ==>
                  after == if exists n :: n >= fence.value.length && FenceStands(text, i, fence.value.unit, n) then None
                           else fence)
  {
    forall u, n: nat
      ensures MarkerAt(text, i) == Some(Marker(u, n)) <==> FenceStands(text, i, u, n)
    {
      MarkerMeans(text, i, u, n);
    }
    hide FenceStands;
    hide MarkerAt;
  }

  lemma FenceStep(text: Text, tiles: seq<Tile>, m: nat)
    requires IsPath(text, tiles) && m < |tiles|
    ensures var f, t := FenceAfter(text, tiles[..m]), tiles[m];
            && IsTile(text, f, t) && t.Start() <= |text|
            && FenceAfter(text, tiles[..m + 1])
               == (if t.FenceLine? then AfterFenceLine(f, MarkerAt(text, t.from)) else f)
  {
    PathFront(text, tiles, m + 1);
    hide IsTile;
    hide MarkerAt;
    hide AfterFenceLine;
    var path := tiles[..m + 1];
    assert path[..m] == tiles[..m];
    TileAdvances(text, FenceAfter(text, path[..m]), path[m]);
  }

  /** Line by line over a tiling: the fence open before a tile decides with it
      which is open after. */
  lemma FenceChanges(text: Text, tiles: seq<Tile>, m: nat)
    requires IsPath(text, tiles) && m < |tiles|
    ensures var f, g, t := FenceAfter(text, tiles[..m]), FenceAfter(text, tiles[..m + 1]), tiles[m];
            && t.Start() < |text|
            && (t.FenceLine? <==> (t.Start() == 0 || text[t.Start() - 1] == 0x0A)
                                  && (f.Some? || exists u, n :: FenceStands(text, t.Start(), u, n)))
            && (!t.FenceLine? ==> g == f)
            && (t.FenceLine? && f.None? ==>
                  forall u, n :: g == Some(Marker(u, n)) <==> FenceStands(text, t.from, u, n))
            && (t.FenceLine? && f.Some? ==>
                  g == if exists n :: n >= f.value.length && FenceStands(text, t.from, f.value.unit, n) then None
                       else f)
  {
    hide FenceStands;
    hide MarkerAt;
    hide AfterFenceLine;
    hide IsTile;
    hide IsPath;
    hide FenceAfter;
    FenceStep(text, tiles, m);
    var f, t := FenceAfter(text, tiles[..m]), tiles[m];
    FenceLineMeans(text, f, t);
    FenceLineChanges(text, t.Start(), f);
  }

  // ---------- A formula on its own ----------

  lemma {:induction false} SlashesShift(text: Text, from: nat, to: nat, start: nat, i: nat)
    requires from + start <= from + i <= to <= |text|
    ensures Slashes(text[from..to], start, i) == Slashes(text, from + start, from + i)
    decreases i
  {
    if start < i {
      assert text[from..to][i - 1] == text[from + i - 1];
      if text[from + i - 1] == BACKSLASH {
        SlashesShift(text, from, to, start, i - 1);
      }
    }
  }

  lemma ClosesShift(text: Text, r: MathRange, i: nat)
    requires IsFormula(text, r.from, r) && Width(r.kind) <= i < r.to - r.from
    ensures var cut := text[r.from..r.to];
            && (i + Width(r.kind) <= |cut| ==>
                 (Closes(cut, Width(r.kind), r.kind, i) <==> Closes(text, r.from + Width(r.kind), r.kind, r.from + i)))
            && (Breaks(cut, Width(r.kind), r.kind, i) <==> Breaks(text, r.from + Width(r.kind), r.kind, r.from + i))
  {
    SlashesShift(text, r.from, r.to, Width(r.kind), i);
  }

  lemma CutOfCut(text: Text, from: nat, to: nat, w: nat)
    requires from + w <= to - w && to <= |text|
    ensures text[from..to][w..to - from - w] == text[from + w..to - w]
  {
    var a, b := text[from..to][w..to - from - w], text[from + w..to - w];
    assert |a| == |b|;
    forall i | 0 <= i < |a|
      ensures a[i] == b[i]
    {
      assert a[i] == text[from..to][w + i];
    }
  }

  lemma CutIsFormula(text: Text, r: MathRange)
    requires IsFormula(text, r.from, r)
    ensures var cut := text[r.from..r.to];
            IsFormula(cut, 0, MathRange(0, |cut|, r.content, r.kind))
  {
    var cut := text[r.from..r.to];
    var w := Width(r.kind);
    assert |cut| == r.to - r.from && cut[0] == text[r.from] && cut[1] == text[r.from + 1];
    CutOfCut(text, r.from, r.to, w);
    assert cut[w..|cut| - w] == r.content;
    ClosesShift(text, r, |cut| - w);
    forall p | w <= p < |cut| - w
      ensures !Closes(cut, w, r.kind, p) && !Breaks(cut, w, r.kind, p)
    {
      ClosesShift(text, r, p);
    }
    hide Unescaped;
  }

  lemma DollarIsNoFence(text: Text)
    requires text != [] && text[0] == DOLLAR
    ensures !Fenced(text, None, 0)
  {
    var line := text[0..LineEnd(text, 0)];
    assert LineEnd(text, 0) > 0 && line[0] == DOLLAR;
    assert line[0..] == line;
  }

  /** A formula cut out and scanned on its own is found again, as one range that
      covers the whole cut. */
  lemma FoundAgain(text: Text, r: MathRange, tiles: seq<Tile>)
    requires IsFormula(text, r.from, r) && IsTiling(text[r.from..r.to], tiles)
    ensures var cut := text[r.from..r.to];
            Formulas(tiles) == [MathRange(0, |cut|, r.content, r.kind)]
  {
    var cut := text[r.from..r.to];
    var whole := Formula(MathRange(0, |cut|, r.content, r.kind));
    CutIsFormula(text, r);
    DollarIsNoFence(cut);
    hide IsFormula;
    PathGrows(cut, [], whole);
    assert [] + [whole] == [whole];
    TilingUnique(cut, [whole], tiles);
  }
}
