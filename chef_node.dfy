/** The `Node` helpers of the ChefParser in thesis/parsers/cmof.py: the
    source span of a ripper syntax tree (`get_content_bounds`) and the text
    it covers (`get_content`), over the lines of the recipe. */
module ChefNode {
  import opened Wrappers
  import opened Text

  /** A ripper syntax tree as the parser walks it: a node with an id and its
      arguments, a plain list, a string, an integer, or anything else (nil,
      booleans). */
  datatype Ast = Node(id: string, args: seq<Ast>) | List(items: seq<Ast>) | Str(s: string) | Int(n: int) | Other

  /** `Node.check_id`. */
  predicate CheckId(ast: Ast, ids: seq<string>)
  {
    ast.Node? && ast.id in ids
  }

  /** `Node.check_node`. */
  predicate CheckNode(ast: Ast, ids: seq<string>, size: int)
  {
    CheckId(ast, ids) && |ast.args| == size
  }

  // ---------------------------------------------------------------------
  // Bounds

  /** A start coordinate: a number, or the `float('inf')` the scan starts from. */
  datatype Ext = Fin(v: int) | Inf

  predicate LeE(a: Ext, b: Ext)
  {
    b.Inf? || (a.Fin? && a.v <= b.v)
  }

  function MinE(a: Ext, b: Ext): (r: Ext)
    ensures LeE(r, a) && LeE(r, b) && (r == a || r == b)
  {
    if b.Fin? && (a.Inf? || b.v < a.v) then b else a
  }

  function SubE(a: Ext, n: int): Ext
  {
    if a.Inf? then Inf else Fin(a.v - n)
  }

  function Max(a: int, b: int): int
  {
    if b > a then b else a
  }

  /** `(start_line, start_column, end_line, end_column)`; lines count from 1. */
  datatype Bounds = Bounds(startLine: Ext, startColumn: Ext, endLine: int, endColumn: int)

  /** What `get_content_bounds` returns when nothing below is bounded. */
  const Unbounded := Bounds(Inf, Inf, 0, 0)

  /** Start line and start column are bounded together, and an unbounded
      result is `(inf, inf, 0, 0)`. */
  predicate WellFormed(b: Bounds)
  {
    (b.startLine.Fin? <==> b.startColumn.Fin?) && (b.startLine.Inf? ==> b == Unbounded)
  }

  const BoundedStructures := ["brace_block", "arg_paren", "string_literal", "string_embexpr",
                              "aref", "array", "args_add_block"]
  const RightBrackets := ['}', ')', ']', '"', '\'']
  const LeftBrackets := ['{', '(', '[', '"', '\'']

  /** `is_bounds`: a `[line, column]` pair. */
  predicate IsBounds(a: Ast)
  {
    a.List? && |a.items| == 2 && a.items[0].Int? && a.items[1].Int?
  }

  /** `len(x)`: None where Python raises TypeError. */
  function Len(a: Ast): Option<int>
  {
    match a
    case Str(s) => Some(|s|)
    case List(items) => Some(|items|)
    case _ => None
  }

  /** `lines[l][c]`, None for IndexError. */
  function CharAt(lines: seq<string>, l: int, c: int): Option<char>
  {
    match PyIndex(lines, l)
    case None => None
    case Some(text) => PyIndex(text, c)
  }

  /** A node whose last argument is its `[line, column]` position. */
  predicate IsPositioned(ast: Ast)
  {
    ast.Node? && |ast.args| > 0 && IsBounds(ast.args[|ast.args| - 1])
  }

  /** The bounds of a positioned node: it starts at its position and ends on
      the same line after as many columns as its content (the argument
      before the position) is long; an `@ident` preceded by ':' starts one
      column earlier. */
  function LeafBounds(ast: Ast, lines: seq<string>): (r: Result<Bounds>)
    requires IsPositioned(ast)
    ensures r.Ok? ==> WellFormed(r.value)
    ensures r.Ok? ==>
              var pos := ast.args[|ast.args| - 1].items;
              var line, col := pos[0].n, pos[1].n;
              |ast.args| >= 2 && Len(ast.args[|ast.args| - 2]).Some? &&
              r.value.startLine == Fin(line) && r.value.endLine == line &&
              r.value.endColumn == col + Len(ast.args[|ast.args| - 2]).value - 1 &&
              r.value.startColumn ==
                (if ast.id == "@ident" && CharAt(lines, line - 1, col - 1) == Some(':')
                 then Fin(col - 1) else Fin(col))
    ensures var pos := ast.args[|ast.args| - 1].items;
            r.Err? <==>
              |ast.args| < 2 || Len(ast.args[|ast.args| - 2]).None? ||
              (ast.id == "@ident" && CharAt(lines, pos[0].n - 1, pos[1].n - 1).None?)
  {
    var pos := ast.args[|ast.args| - 1].items;
    var line, col := pos[0].n, pos[1].n;
    if |ast.args| < 2 then Err("IndexError")
    else
      match Len(ast.args[|ast.args| - 2])
      case None => Err("TypeError")
      case Some(n) =>
        var b := Bounds(Fin(line), Fin(col), line, col + n - 1);
        if ast.id != "@ident" then Ok(b)
        else
          match CharAt(lines, line - 1, col - 1)
          case None => Err("IndexError")
          case Some(c) => Ok(if c == ':' then b.(startColumn := Fin(col - 1)) else b)
  }

  /** Number of leading whitespace characters. */
  function LeadingSpaces(s: string): (n: nat)
    ensures n <= |s|
  {
    SpacesFrom(s, 0)
  }

  /** The position of the first character at or after `i` that is not
      whitespace, or the length. */
  function SpacesFrom(s: string, i: nat): (n: nat)
    requires i <= |s|
    ensures i <= n <= |s|
    decreases |s| - i
  {
    if i < |s| && IsSpace(s[i]) then SpacesFrom(s, i + 1) else i
  }

  /** The leading spaces are whitespace, and what follows them is not. */
  lemma LeadingSpacesSpec(s: string)
    ensures var n := LeadingSpaces(s);
            (forall k :: 0 <= k < n ==> IsSpace(s[k])) && (n == |s| || !IsSpace(s[n]))
  {
    SpacesFromSpec(s, 0);
  }

  lemma {:induction false} SpacesFromSpec(s: string, i: nat)
    requires i <= |s|
    ensures var n := SpacesFrom(s, i);
            (forall k :: i <= k < n ==> IsSpace(s[k])) && (n == |s| || !IsSpace(s[n]))
    decreases |s| - i
  {
    if i < |s| && IsSpace(s[i]) {
      SpacesFromSpec(s, i + 1);
    }
  }

  /** How far the loop over the text after the end moves the end column:
      past the spaces and a closing bracket, where the spaces are counted
      twice (once with the bracket, once after the loop); past the spaces
      alone otherwise. */
  function RightExtension(rest: string): int
  {
    var i := LeadingSpaces(rest);
    if i < |rest| && rest[i] in RightBrackets then 2 * i + 1 else i
  }

  /** How far the loop over the text before the start, read backwards,
      moves the start column: past the spaces and an opening bracket, and
      not at all when no bracket comes first. */
  function LeftShift(rev: string): int
  {
    var i := LeadingSpaces(rev);
    if i < |rev| && rev[i] in LeftBrackets then i + 1 else 0
  }

  /** `s[::-1]`. */
  function Reverse(s: string): string
  {
    seq(|s|, k requires 0 <= k < |s| => s[|s| - 1 - k])
  }

  /** The `#` in front of an embedded expression's `{`: the start column
      moves back one more when it is there. */
  function EmbeddedStart(startText: string, col: int): Result<int>
  {
    match PyIndex(startText, col)
    case None => Err("IndexError")
    case Some(c) =>
      if c != '{' then Ok(col)
      else
        match PyIndex(startText, col - 1)
        case None => Err("IndexError")
        case Some(c') => Ok(if c' == '#' then col - 1 else col)
  }

  /** The end column after the loop over the text that follows it. */
  function EndColumnAfter(endText: string, col: int): int
  {
    col + RightExtension(PySlice(endText, col + 1, |endText|))
  }

  /** The start column after the loop over the text before it and, for an
      embedded expression, the `#{` test. */
  function BracketStart(ast: Ast, b: Bounds, lines: seq<string>): Result<int>
    requires ast.Node? && b.startLine.Fin? && b.startColumn.Fin?
  {
    match PyIndex(lines, b.startLine.v - 1)
    case None => Err("IndexError")
    case Some(startText) =>
      var col := b.startColumn.v - LeftShift(Reverse(PySlice(startText, 0, b.startColumn.v)));
      if ast.id != "string_embexpr" then Ok(col) else EmbeddedStart(startText, col)
  }

  /** The bounds of a bracketed structure once the end line's text and the
      new start column are known; the end is adjusted first, so its
      IndexError comes first. */
  function WithBrackets(b: Bounds, endText: Option<string>, col: Result<int>): (r: Result<Bounds>)
    ensures r.Ok? ==> r.value.startLine == b.startLine && r.value.startColumn.Fin? && r.value.endLine == b.endLine
  {
    if endText.None? then Err("IndexError")
    else if col.Err? then Err(col.error)
    else Ok(Bounds(b.startLine, Fin(col.value), b.endLine, EndColumnAfter(endText.value, b.endColumn)))
  }

  /** The adjustment after the children's bounds are combined: bracketed
      structures take in their brackets, an embedded expression its `#`,
      and a `top_const_ref` the `::` before it. */
  function Adjust(ast: Ast, b: Bounds, lines: seq<string>): (r: Result<Bounds>)
    requires WellFormed(b)
    ensures r.Ok? ==> WellFormed(r.value)
    ensures r.Ok? ==> r.value.startLine == b.startLine && r.value.endLine == b.endLine
  {
    if b.startLine.Fin? && CheckId(ast, BoundedStructures) then
      WithBrackets(b, PyIndex(lines, b.endLine - 1), BracketStart(ast, b, lines))
    else if CheckId(ast, ["top_const_ref"]) then Ok(b.(startColumn := SubE(b.startColumn, 2)))
    else Ok(b)
  }

  /** One step of the loop over the children: minima of the starts, maxima of
      the ends. */
  function Merge(acc: Bounds, b: Bounds): Bounds
  {
    Bounds(MinE(acc.startLine, b.startLine), MinE(acc.startColumn, b.startColumn),
           Max(acc.endLine, b.endLine), Max(acc.endColumn, b.endColumn))
  }

  /** `get_content_bounds`. */
  function BoundsOf(ast: Ast, lines: seq<string>): (r: Result<Bounds>)
    ensures r.Ok? ==> WellFormed(r.value)
    decreases ast
  {
    if IsPositioned(ast) then LeafBounds(ast, lines)
    else
      match ast
      case Node(_, args) =>
        (match ChildrenBounds(args, lines)
         case Err(m) => Err(m)
         case Ok(b) => Adjust(ast, b, lines))
      case List(items) => ChildrenBounds(items, lines)
      case _ => Ok(Unbounded)
  }

  /** The loop over the children of a node or a list, with the bounds each
      child contributes. */
  function ChildrenBounds(children: seq<Ast>, lines: seq<string>): (r: Result<Bounds>)
    ensures r.Ok? ==> WellFormed(r.value)
    decreases children
  {
    if children == [] then Ok(Unbounded)
    else
      match ChildrenBounds(children[..|children| - 1], lines)
      case Err(m) => Err(m)
      case Ok(acc) =>
        match BoundsOf(children[|children| - 1], lines)
        case Err(m) => Err(m)
        case Ok(b) => Ok(Merge(acc, b))
  }

  /** The combination of the children's bounds fails exactly when one of
      them does. */
  lemma {:induction false} ChildrenBoundsOk(children: seq<Ast>, lines: seq<string>)
    ensures ChildrenBounds(children, lines).Ok? <==>
            forall k :: 0 <= k < |children| ==> BoundsOf(children[k], lines).Ok?
  {
    if children != [] {
      var n := |children| - 1;
      ChildrenBoundsOk(children[..n], lines);
      assert forall k :: 0 <= k < n ==> children[..n][k] == children[k];
    }
  }

  /** Each coordinate is combined on its own: the start line and the start
      column are each the least of the children's (inf when there are none),
      and the end line and end column each the greatest of the children's
      and 0. */
  lemma {:induction false} ChildrenBoundsExtremes(children: seq<Ast>, lines: seq<string>)
    requires ChildrenBounds(children, lines).Ok?
    ensures forall k :: 0 <= k < |children| ==> BoundsOf(children[k], lines).Ok?
    ensures var b := ChildrenBounds(children, lines).value;
            forall k :: 0 <= k < |children| ==>
              var c := BoundsOf(children[k], lines).value;
              LeE(b.startLine, c.startLine) && LeE(b.startColumn, c.startColumn) &&
              c.endLine <= b.endLine && c.endColumn <= b.endColumn
    ensures var b := ChildrenBounds(children, lines).value;
            0 <= b.endLine && 0 <= b.endColumn &&
            (b.startLine.Inf? || exists k :: 0 <= k < |children| && b.startLine == BoundsOf(children[k], lines).value.startLine) &&
            (b.startColumn.Inf? || exists k :: 0 <= k < |children| && b.startColumn == BoundsOf(children[k], lines).value.startColumn) &&
            (b.endLine == 0 || exists k :: 0 <= k < |children| && b.endLine == BoundsOf(children[k], lines).value.endLine) &&
            (b.endColumn == 0 || exists k :: 0 <= k < |children| && b.endColumn == BoundsOf(children[k], lines).value.endColumn)
  {
    ChildrenBoundsOk(children, lines);
    if children != [] {
      var n := |children| - 1;
      var front := children[..n];
      ChildrenBoundsExtremes(front, lines);
      assert forall k :: 0 <= k < n ==> front[k] == children[k];
    }
  }

  /** No bounded child, no bounds: when every child is unbounded, so is the
      combination. */
  lemma {:induction false} ChildrenUnbounded(children: seq<Ast>, lines: seq<string>)
    requires forall k :: 0 <= k < |children| ==> BoundsOf(children[k], lines) == Ok(Unbounded)
    ensures ChildrenBounds(children, lines) == Ok(Unbounded)
  {
    if children != [] {
      var n := |children| - 1;
      assert forall k :: 0 <= k < n ==> children[..n][k] == children[k];
      ChildrenUnbounded(children[..n], lines);
    }
  }

  /** A node with no positioned descendant is unbounded. */
  predicate NoPosition(ast: Ast)
    decreases ast
  {
    !IsPositioned(ast) &&
    match ast
    case Node(_, args) => forall k :: 0 <= k < |args| ==> NoPosition(args[k])
    case List(items) => forall k :: 0 <= k < |items| ==> NoPosition(items[k])
    case _ => true
  }

  /** With no `[line, column]` anywhere below, `get_content_bounds` is
      `(inf, inf, 0, 0)`. */
  lemma {:induction false} UnboundedWithoutPositions(ast: Ast, lines: seq<string>)
    requires NoPosition(ast)
    ensures BoundsOf(ast, lines) == Ok(Unbounded)
    decreases ast
  {
    match ast
    case Node(_, args) =>
      forall k | 0 <= k < |args|
        ensures BoundsOf(args[k], lines) == Ok(Unbounded)
      {
        UnboundedWithoutPositions(args[k], lines);
      }
      ChildrenUnbounded(args, lines);
    case List(items) =>
      forall k | 0 <= k < |items|
        ensures BoundsOf(items[k], lines) == Ok(Unbounded)
      {
        UnboundedWithoutPositions(items[k], lines);
      }
      ChildrenUnbounded(items, lines);
    case _ =>
  }

  /** The loop over the text after the end column. */
  method ExtendRight(rest: string) returns (n: int)
    ensures n == RightExtension(rest)
  {
    LeadingSpacesSpec(rest);
    var i := 0;
    n := 0;
    var k := 0;
    while k < |rest|
      invariant 0 <= k <= |rest| && i == k && n == 0
      invariant forall j :: 0 <= j < k ==> IsSpace(rest[j])
    {
      var c := rest[k];
      if IsSpace(c) {
        i := i + 1;
      } else if c in RightBrackets {
        n := n + i + 1;
        break;
      } else {
        break;
      }
      k := k + 1;
    }
    n := n + i;
  }

  /** The loop over the text before the start column, read backwards. */
  method ShiftLeft(rev: string) returns (n: int)
    ensures n == LeftShift(rev)
  {
    LeadingSpacesSpec(rev);
    var i := 0;
    n := 0;
    var k := 0;
    while k < |rev|
      invariant 0 <= k <= |rev| && i == k && n == 0
      invariant forall j :: 0 <= j < k ==> IsSpace(rev[j])
    {
      var c := rev[k];
      if IsSpace(c) {
        i := i + 1;
      } else if c in LeftBrackets {
        n := i + 1;
        break;
      } else {
        break;
      }
      k := k + 1;
    }
  }

  /** `get_content_bounds`. */
  method GetContentBounds(ast: Ast, lines: seq<string>) returns (r: Result<Bounds>)
    ensures r == BoundsOf(ast, lines)
    decreases ast
  {
    if IsPositioned(ast) {
      return LeafBounds(ast, lines);
    }
    match ast {
      case Node(_, args) =>
        var b := CombineChildren(args, lines);
        if b.Err? {
          return b;
        }
        r := AdjustBounds(ast, b.value, lines);
      case List(items) =>
        r := CombineChildren(items, lines);
      case _ =>
        r := Ok(Unbounded);
    }
  }

  /** The loop of `get_content_bounds` over the children. */
  method CombineChildren(children: seq<Ast>, lines: seq<string>) returns (r: Result<Bounds>)
    ensures r == ChildrenBounds(children, lines)
    decreases children
  {
    var startLine, startColumn, endLine, endColumn := Inf, Inf, 0, 0;
    var k := 0;
    while k < |children|
      invariant 0 <= k <= |children|
      invariant ChildrenBounds(children[..k], lines) == Ok(Bounds(startLine, startColumn, endLine, endColumn))
    {
      assert children[..k + 1][..k] == children[..k];
      var bound := GetContentBounds(children[k], lines);
      if bound.Err? {
        ChildrenSettled(children, k + 1, lines);
        return bound;
      }
      var b := bound.value;
      if LeE(b.startLine, startLine) && b.startLine != startLine {
        startLine := b.startLine;
      }
      if LeE(b.startColumn, startColumn) && b.startColumn != startColumn {
        startColumn := b.startColumn;
      }
      if b.endLine > endLine {
        endLine := b.endLine;
      }
      if b.endColumn > endColumn {
        endColumn := b.endColumn;
      }
      k := k + 1;
    }
    assert children[..k] == children;
    return Ok(Bounds(startLine, startColumn, endLine, endColumn));
  }

  /** The bracket and `::` adjustments of `get_content_bounds`. */
  method AdjustBounds(ast: Ast, b: Bounds, lines: seq<string>) returns (r: Result<Bounds>)
    requires WellFormed(b)
    ensures r == Adjust(ast, b, lines)
  {
    if b.startLine.Fin? && CheckId(ast, BoundedStructures) {
      r := TakeInBrackets(ast, b, lines);
    } else if CheckId(ast, ["top_const_ref"]) {
      r := Ok(b.(startColumn := SubE(b.startColumn, 2)));
    } else {
      r := Ok(b);
    }
  }

  /** The two bracket loops and the `#{` test. */
  method TakeInBrackets(ast: Ast, b: Bounds, lines: seq<string>) returns (r: Result<Bounds>)
    requires ast.Node? && b.startLine.Fin? && b.startColumn.Fin?
    ensures r == WithBrackets(b, PyIndex(lines, b.endLine - 1), BracketStart(ast, b, lines))
  {
    var endText := PyIndex(lines, b.endLine - 1);
    if endText.None? {
      return Err("IndexError");
    }
    var endColumn := TakeInRight(endText.value, b.endColumn);
    var startColumn := TakeInLeft(ast, b, lines);
    if startColumn.Err? {
      r := Err(startColumn.error);
    } else {
      r := Ok(Bounds(b.startLine, Fin(startColumn.value), b.endLine, endColumn));
    }
  }

  /** The loop over the text after the end column. */
  method TakeInRight(endText: string, col: int) returns (n: int)
    ensures n == EndColumnAfter(endText, col)
  {
    var extra := ExtendRight(PySlice(endText, col + 1, |endText|));
    n := col + extra;
  }

  /** The loop over the text before the start column, then the `#{` test. */
  method TakeInLeft(ast: Ast, b: Bounds, lines: seq<string>) returns (r: Result<int>)
    requires ast.Node? && b.startLine.Fin? && b.startColumn.Fin?
    ensures r == BracketStart(ast, b, lines)
  {
    var startText := PyIndex(lines, b.startLine.v - 1);
    if startText.None? {
      return Err("IndexError");
    }
    var shift := ShiftLeft(Reverse(PySlice(startText.value, 0, b.startColumn.v)));
    var startColumn := b.startColumn.v - shift;
    if ast.id != "string_embexpr" {
      return Ok(startColumn);
    }
    r := EmbeddedBrace(startText.value, startColumn);
  }

  /** The `#{` test of an embedded expression. */
  method EmbeddedBrace(startText: string, col: int) returns (r: Result<int>)
    ensures r == EmbeddedStart(startText, col)
  {
    var c := PyIndex(startText, col);
    if c.None? {
      return Err("IndexError");
    }
    r := Ok(col);
    if c.value == '{' {
      var c' := PyIndex(startText, col - 1);
      if c'.None? {
        return Err("IndexError");
      }
      if c'.value == '#' {
        r := Ok(col - 1);
      }
    }
  }

  lemma {:induction false} ChildrenSettled(children: seq<Ast>, j: nat, lines: seq<string>)
    requires j <= |children| && ChildrenBounds(children[..j], lines).Err?
    ensures ChildrenBounds(children, lines) == ChildrenBounds(children[..j], lines)
    decreases |children| - j
  {
    if j < |children| {
      assert children[..j + 1][..j] == children[..j];
      ChildrenSettled(children, j + 1, lines);
    } else {
      assert children[..j] == children;
    }
  }

  // ---------------------------------------------------------------------
  // Content

  /** The text `get_content` gives an empty string literal, hash or array. */
  function EmptyText(id: string): Option<string>
  {
    if id == "string_literal" then Some("''")
    else if id == "hash" then Some("{}")
    else if id == "array" then Some("[]")
    else None
  }

  /** The part of line `l` (0-based) inside the span from line `sl`, column
      `sc` to line `el`, column `ec`, both ends included. */
  function LinePiece(lines: seq<string>, sl: int, sc: int, el: int, ec: int, l: int): Result<string>
  {
    match PyIndex(lines, l)
    case None => Err("IndexError")
    case Some(text) =>
      Ok(if sl - 1 == el - 1 then PySlice(text, sc, ec + 1)
         else if l == el - 1 then PySlice(text, 0, ec + 1)
         else if l == sl - 1 then PySlice(text, sc, |text|)
         else text)
  }

  /** The loop of `get_content` over the lines `sl - 1` to `hi - 1`. */
  function SpanText(lines: seq<string>, sl: int, sc: int, el: int, ec: int, hi: int): Result<string>
    decreases hi - sl
  {
    if hi <= sl - 1 then Ok("")
    else
      match SpanText(lines, sl, sc, el, ec, hi - 1)
      case Err(m) => Err(m)
      case Ok(t) =>
        match LinePiece(lines, sl, sc, el, ec, hi - 1)
        case Err(m) => Err(m)
        case Ok(p) => Ok(t + p)
  }

  function ConcatLines(ls: seq<string>): string
  {
    if ls == [] then "" else ConcatLines(ls[..|ls| - 1]) + ls[|ls| - 1]
  }

  /** Before the last line, the loop has collected the first line from the
      start column and the whole lines after it. */
  lemma {:induction false} SpanPrefix(lines: seq<string>, sl: int, sc: int, el: int, ec: int, hi: int)
    requires 1 <= sl <= hi < el <= |lines|
    ensures SpanText(lines, sl, sc, el, ec, hi) ==
            Ok(PySlice(lines[sl - 1], sc, |lines[sl - 1]|) + ConcatLines(lines[sl..hi]))
    decreases hi
  {
    if hi == sl {
      SpanFirstLine(lines, sl, sc, el, ec);
    } else {
      SpanPrefix(lines, sl, sc, el, ec, hi - 1);
      SpanMiddleLine(lines, sl, sc, el, ec, hi, PySlice(lines[sl - 1], sc, |lines[sl - 1]|));
    }
  }

  /** A line strictly between the first and the last is taken whole. */
  lemma SpanMiddleLine(lines: seq<string>, sl: int, sc: int, el: int, ec: int, hi: int, first: string)
    requires 1 <= sl < hi < el <= |lines|
    requires SpanText(lines, sl, sc, el, ec, hi - 1) == Ok(first + ConcatLines(lines[sl..hi - 1]))
    ensures SpanText(lines, sl, sc, el, ec, hi) == Ok(first + ConcatLines(lines[sl..hi]))
  {
    var middle, line := ConcatLines(lines[sl..hi - 1]), lines[hi - 1];
    LinePieceWhole(lines, sl, sc, el, ec, hi - 1);
    SpanTextStep(lines, sl, sc, el, ec, hi, first + middle, line);
    ConcatLinesStep(lines, sl, hi);
    AppendAssoc(first, middle, line);
  }

  lemma AppendAssoc(a: string, b: string, c: string)
    ensures (a + b) + c == a + (b + c)
  {
  }

  /** The first line of several contributes its text from the start column. */
  lemma SpanFirstLine(lines: seq<string>, sl: int, sc: int, el: int, ec: int)
    requires 1 <= sl < el <= |lines|
    ensures SpanText(lines, sl, sc, el, ec, sl) ==
            Ok(PySlice(lines[sl - 1], sc, |lines[sl - 1]|) + ConcatLines(lines[sl..sl]))
  {
    var first := PySlice(lines[sl - 1], sc, |lines[sl - 1]|);
    assert SpanText(lines, sl, sc, el, ec, sl - 1) == Ok("");
    assert LinePiece(lines, sl, sc, el, ec, sl - 1) == Ok(first);
    SpanTextStep(lines, sl, sc, el, ec, sl, "", first);
    assert lines[sl..sl] == [];
    assert "" + first == first + "";
  }

  lemma LinePieceWhole(lines: seq<string>, sl: int, sc: int, el: int, ec: int, l: int)
    requires sl - 1 < l < el - 1 && 0 <= l < |lines|
    ensures LinePiece(lines, sl, sc, el, ec, l) == Ok(lines[l])
  {
  }

  /** One more line of the loop appends its piece. */
  lemma SpanTextStep(lines: seq<string>, sl: int, sc: int, el: int, ec: int, hi: int, t: string, p: string)
    requires sl <= hi
    requires SpanText(lines, sl, sc, el, ec, hi - 1) == Ok(t) && LinePiece(lines, sl, sc, el, ec, hi - 1) == Ok(p)
    ensures SpanText(lines, sl, sc, el, ec, hi) == Ok(t + p)
  {
  }

  lemma ConcatLinesStep(lines: seq<string>, lo: int, hi: int)
    requires 0 <= lo < hi <= |lines|
    ensures ConcatLines(lines[lo..hi]) == ConcatLines(lines[lo..hi - 1]) + lines[hi - 1]
  {
    assert lines[lo..hi][..hi - 1 - lo] == lines[lo..hi - 1];
  }

  /** The span's text, from the start to the end coordinate inclusive: on one
      line the slice between the columns, across lines the first line from
      the start column, the whole lines between, and the last line up to
      the end column. */
  lemma SpanSpec(lines: seq<string>, sl: int, sc: int, el: int, ec: int)
    requires 1 <= sl <= el <= |lines|
    ensures sl == el ==> SpanText(lines, sl, sc, el, ec, el) == Ok(PySlice(lines[sl - 1], sc, ec + 1))
    ensures sl < el ==> SpanText(lines, sl, sc, el, ec, el) ==
                        Ok(PySlice(lines[sl - 1], sc, |lines[sl - 1]|) + ConcatLines(lines[sl..el - 1]) +
                           PySlice(lines[el - 1], 0, ec + 1))
  {
    if sl < el {
      SpanPrefix(lines, sl, sc, el, ec, el - 1);
    } else {
      assert SpanText(lines, sl, sc, el, ec, sl - 1) == Ok("");
      var piece := PySlice(lines[sl - 1], sc, ec + 1);
      assert LinePiece(lines, sl, sc, el, ec, sl - 1) == Ok(piece);
      assert "" + piece == piece;
    }
  }

  /** The `end` of a `do ... end` block, which ripper leaves out of the span. */
  function DoBlockEnd(ast: Ast): Result<string>
    requires ast.Node?
  {
    if ast.id != "method_add_block" then Ok("")
    else if |ast.args| < 2 then Err("IndexError")
    else if !ast.args[1].Node? then Err("AttributeError")
    else Ok(if ast.args[1].id == "do_block" then "end" else "")
  }

  /** `get_content`. */
  function Content(ast: Ast, lines: seq<string>): Result<string>
  {
    if !ast.Node? then Err("AttributeError")
    else if EmptyText(ast.id).Some? && |ast.args| == 0 then Ok(EmptyText(ast.id).value)
    else if ast.id == "string_literal" && !ast.args[0].Node? then Err("AttributeError")
    else if ast.id == "string_literal" && |ast.args[0].args| == 0 then Ok("''")
    else
      match BoundsOf(ast, lines)
      case Err(m) => Err(m)
      case Ok(b) =>
        if b.startLine.Inf? then Ok("")
        else
          match SpanText(lines, b.startLine.v, b.startColumn.v, b.endLine, b.endColumn, b.endLine)
          case Err(m) => Err(m)
          case Ok(t) =>
            match DoBlockEnd(ast)
            case Err(m) => Err(m)
            case Ok(suffix) => Ok(Strip(t + suffix))
  }

  /** The fixed texts of `get_content`: the empty structures give their
      literal, and a node with nothing positioned below it gives "". */
  lemma ContentFixed(ast: Ast, lines: seq<string>)
    requires ast.Node?
    ensures EmptyText(ast.id).Some? && |ast.args| == 0 ==> Content(ast, lines) == Ok(EmptyText(ast.id).value)
    ensures ast.id == "string_literal" && |ast.args| > 0 && ast.args[0].Node? && |ast.args[0].args| == 0 ==>
            Content(ast, lines) == Ok("''")
    ensures NoPosition(ast) && EmptyText(ast.id).None? ==> Content(ast, lines) == Ok("")
  {
    if NoPosition(ast) {
      UnboundedWithoutPositions(ast, lines);
    }
  }

  /** `get_content`. */
  method GetContent(ast: Ast, lines: seq<string>) returns (r: Result<string>)
    ensures r == Content(ast, lines)
  {
    if !ast.Node? {
      return Err("AttributeError");
    }
    var empty := EmptyText(ast.id);
    if empty.Some? && |ast.args| == 0 {
      return Ok(empty.value);
    }
    if ast.id == "string_literal" {
      if !ast.args[0].Node? {
        return Err("AttributeError");
      }
      if |ast.args[0].args| == 0 {
        return Ok("''");
      }
    }
    var bounds := GetContentBounds(ast, lines);
    if bounds.Err? {
      return Err(bounds.error);
    }
    var b := bounds.value;
    if b.startLine.Inf? {
      return Ok("");
    }
    var text := CollectSpan(lines, b.startLine.v, b.startColumn.v, b.endLine, b.endColumn);
    if text.Err? {
      return text;
    }
    var res := text.value;
    if ast.id == "method_add_block" {
      if |ast.args| < 2 {
        return Err("IndexError");
      }
      if !ast.args[1].Node? {
        return Err("AttributeError");
      }
      if ast.args[1].id == "do_block" {
        res := res + "end";
      }
    }
    assert DoBlockEnd(ast).Ok? && res == text.value + DoBlockEnd(ast).value;
    return Ok(Strip(res));
  }

  /** The loop of `get_content` over the lines of the span. */
  method CollectSpan(lines: seq<string>, sl: int, sc: int, el: int, ec: int) returns (r: Result<string>)
    ensures r == SpanText(lines, sl, sc, el, ec, el)
  {
    var res := "";
    var l := sl - 1;
    if el <= l {
      return Ok(res);
    }
    while l < el
      invariant sl - 1 <= l <= el
      invariant SpanText(lines, sl, sc, el, ec, l) == Ok(res)
    {
      var text := PyIndex(lines, l);
      if text.None? {
        SpanSettled(lines, sl, sc, el, ec, l + 1, el);
        return Err("IndexError");
      }
      if sl - 1 == el - 1 {
        res := res + PySlice(text.value, sc, ec + 1);
      } else if l == el - 1 {
        res := res + PySlice(text.value, 0, ec + 1);
      } else if l == sl - 1 {
        res := res + PySlice(text.value, sc, |text.value|);
      } else {
        res := res + text.value;
      }
      l := l + 1;
    }
    return Ok(res);
  }

  lemma {:induction false} SpanSettled(lines: seq<string>, sl: int, sc: int, el: int, ec: int, j: int, hi: int)
    requires sl - 1 < j <= hi && SpanText(lines, sl, sc, el, ec, j).Err?
    ensures SpanText(lines, sl, sc, el, ec, hi) == SpanText(lines, sl, sc, el, ec, j)
    decreases hi - j
  {
    if j < hi {
      SpanSettled(lines, sl, sc, el, ec, j + 1, hi);
    }
  }
}
