/** Removal of comments from migration scripts (resource/migration/description.go).

    The program is one pass over the bytes that appends to an output buffer and later truncates
    the buffer to erase the indentation in front of a comment or a line that holds only comments.
    The specification works in two stages instead: `Lex` classifies every byte as code, quoted
    text or comment without looking at lines, and `Dropped` says which classified bytes vanish
    by looking at the line around them. `StripSqlComments` is proved to return what is left, and `Lex`
    to be what `RegionAt` reads off the bytes, comment by comment and text by text. */
module SqlComments {

  newtype byte = b: int | 0 <= b < 256

  const TAB: byte := 9
  const LF: byte := 10
  const FF: byte := 12
  const CR: byte := 13
  const SPACE: byte := 32
  const DOUBLE_QUOTE: byte := 34
  const HASH: byte := 35
  const SINGLE_QUOTE: byte := 39
  const STAR: byte := 42
  const DASH: byte := 45
  const SLASH: byte := 47
  const BACKSLASH: byte := 92
  const BACKTICK: byte := 96

  /** The six lexer states of the program. */
  datatype Mode = Normal | SingleQuote | DoubleQuote | Backtick | LineComment | BlockComment {
    predicate Quoting() { SingleQuote? || DoubleQuote? || Backtick? }

    function Delimiter(): byte
      requires Quoting()
    {
      match this
      case SingleQuote => SINGLE_QUOTE
      case DoubleQuote => DOUBLE_QUOTE
      case Backtick => BACKTICK
    }
  }

  datatype Kind = Code | Quoted | Comment

  /** One input byte with its position and its classification. */
  datatype Cell = Cell(at: nat, value: byte, kind: Kind)

  predicate IsSqlWhitespace(character: byte) {
    character == SPACE || character == TAB || character == LF || character == CR || character == FF
  }

  // ----- stage one: classification -----

  /** A lexeme covers one or two bytes of one kind and says in which mode the next one starts. */
  datatype Lexeme = Lexeme(size: nat, kind: Kind, next: Mode)

  function NextLexeme(content: seq<byte>, i: nat, mode: Mode): (r: Lexeme)
    requires i < |content|
    ensures 1 <= r.size <= 2 && i + r.size <= |content|
  {
    var c := content[i];
    var follow := if i + 1 < |content| then [content[i + 1]] else [];
    match mode
    case Normal =>
      if c == SINGLE_QUOTE then Lexeme(1, Quoted, SingleQuote)
      else if c == DOUBLE_QUOTE then Lexeme(1, Quoted, DoubleQuote)
      else if c == BACKTICK then Lexeme(1, Quoted, Backtick)
      else if c == HASH then Lexeme(1, Comment, LineComment)
      else if c == DASH && follow == [DASH] && (i + 2 == |content| || IsSqlWhitespace(content[i + 2])) then
        Lexeme(2, Comment, LineComment)
      else if c == SLASH && follow == [STAR] then Lexeme(2, Comment, BlockComment)
      else Lexeme(1, Code, Normal)
    case LineComment =>
      if c == CR || c == LF then Lexeme(1, Code, Normal) else Lexeme(1, Comment, LineComment)
    case BlockComment =>
      if c == STAR && follow == [SLASH] then Lexeme(2, Comment, Normal) else Lexeme(1, Comment, BlockComment)
    case _ =>
      if c == BACKSLASH && follow != [] then Lexeme(2, Quoted, mode)
      else if c == mode.Delimiter() then
        if follow == [c] then Lexeme(2, Quoted, mode) else Lexeme(1, Quoted, Normal)
      else Lexeme(1, Quoted, mode)
  }

  function Cells(content: seq<byte>, i: nat, n: nat, kind: Kind): (r: seq<Cell>)
    requires i + n <= |content|
  {
    seq(n, k requires 0 <= k < n => Cell(i + k, content[i + k], kind))
  }

  /** The classification of every byte from position `i` on. */
  function Lex(content: seq<byte>, i: nat, mode: Mode): seq<Cell>
    requires i <= |content|
    decreases |content| - i
  {
    if i == |content| then []
    else
      var t := NextLexeme(content, i, mode);
      Cells(content, i, t.size, t.kind) + Lex(content, i + t.size, t.next)
  }

  /** Every byte is classified once, in place. */
  lemma {:induction false} LexCoversInput(content: seq<byte>, i: nat, mode: Mode)
    requires i <= |content|
    ensures var q := Lex(content, i, mode);
      |q| == |content| - i && forall k :: 0 <= k < |q| ==> q[k].at == i + k && q[k].value == content[i + k]
    decreases |content| - i
  {
    if i < |content| {
      var t := NextLexeme(content, i, mode);
      var head, rest := Cells(content, i, t.size, t.kind), Lex(content, i + t.size, t.next);
      hide NextLexeme;
      LexCoversInput(content, i + t.size, t.next);
      assert Lex(content, i, mode) == head + rest;
      assert forall k :: t.size <= k < |head + rest| ==> (head + rest)[k] == rest[k - t.size];
    }
  }

  // ----- the classification by whole regions, read off the bytes -----

  predicate PairAt(content: seq<byte>, i: nat, a: byte, b: byte) {
    i + 1 < |content| && content[i] == a && content[i + 1] == b
  }

  /** The first star and slash from `k` on, or the end. */
  function CloseAt(content: seq<byte>, k: nat): (r: nat)
    requires k <= |content|
    ensures k <= r <= |content| && (r < |content| ==> PairAt(content, r, STAR, SLASH))
    ensures forall m :: k <= m < r ==> !PairAt(content, m, STAR, SLASH)
    decreases |content| - k
  {
    if k == |content| || PairAt(content, k, STAR, SLASH) then k else CloseAt(content, k + 1)
  }

  /** The first CR or LF from `k` on, or the end. */
  function BreakAt(content: seq<byte>, k: nat): (r: nat)
    requires k <= |content|
    ensures k <= r <= |content| && (r < |content| ==> content[r] in {CR, LF})
    ensures forall m :: k <= m < r ==> content[m] !in {CR, LF}
    decreases |content| - k
  {
    if k == |content| || content[k] in {CR, LF} then k else BreakAt(content, k + 1)
  }

  /** How many `d` stand in a row right before `k`, from `lo` on. */
  function RunBefore(content: seq<byte>, lo: nat, k: nat, d: byte): (r: nat)
    requires lo <= k <= |content|
    ensures r <= k - lo && forall m :: k - r <= m < k ==> content[m] == d
    ensures lo < k - r ==> content[k - r - 1] != d
  {
    if k == lo || content[k - 1] != d then 0 else 1 + RunBefore(content, lo, k - 1, d)
  }

  /** An odd number of backslashes stands before it. */
  predicate Escaped(content: seq<byte>, lo: nat, k: nat)
    requires lo <= k <= |content|
  {
    RunBefore(content, lo, k, BACKSLASH) % 2 == 1
  }

  /** The delimiters in a row right before `k`, without the first if it is escaped. */
  function Unescaped(content: seq<byte>, lo: nat, k: nat, d: byte): nat
    requires lo <= k <= |content|
  {
    var n := RunBefore(content, lo, k, d);
    if n > 0 && Escaped(content, lo, k - n) then n - 1 else n
  }

  /** The delimiter at `j` ends the text that begins at `lo`: it is neither escaped nor half of a doubled one. */
  predicate Closes(content: seq<byte>, lo: nat, j: nat, d: byte)
    requires lo <= j < |content|
  {
    content[j] == d && (j + 1 < |content| ==> content[j + 1] != d) && Unescaped(content, lo, j + 1, d) % 2 == 1
  }

  /** The first such delimiter from `k` on, or the end. */
  function QuoteAt(content: seq<byte>, lo: nat, k: nat, d: byte): (r: nat)
    requires lo <= k <= |content|
    ensures k <= r <= |content| && (r < |content| ==> Closes(content, lo, r, d))
    ensures forall m :: k <= m < r ==> !Closes(content, lo, m, d)
    decreases |content| - k
  {
    if k == |content| || Closes(content, lo, k, d) then k else QuoteAt(content, lo, k + 1, d)
  }

  /** A stretch of one kind that begins where the reading stands in code, and after which it does so again. */
  datatype Region = Region(kind: Kind, end: nat)

  function UpTo(content: seq<byte>, kind: Kind, at: nat, size: nat): Region {
    Region(kind, if at < |content| then at + size else at)
  }

  function RegionAt(content: seq<byte>, i: nat): (r: Region)
    requires i < |content|
    ensures i < r.end <= |content|
  {
    var c := content[i];
    if c in {SINGLE_QUOTE, DOUBLE_QUOTE, BACKTICK} then UpTo(content, Quoted, QuoteAt(content, i + 1, i + 1, c), 1)
    else if PairAt(content, i, SLASH, STAR) then UpTo(content, Comment, CloseAt(content, i + 2), 2)
    else if c == HASH || (PairAt(content, i, DASH, DASH) &&
                          (i + 2 == |content| || content[i + 2] in {SPACE, TAB, LF, CR, FF})) then
      UpTo(content, Comment, BreakAt(content, i), 0)
    else Region(Code, i + 1)
  }

  lemma {:induction false} CellsJoin(content: seq<byte>, i: nat, m: nat, n: nat, kind: Kind, rest: seq<Cell>)
    requires i + m + n <= |content|
    ensures Cells(content, i, m, kind) + (Cells(content, i + m, n, kind) + rest) ==
            Cells(content, i, m + n, kind) + rest
  {
  }

  lemma {:induction false} OneLexeme(content: seq<byte>, i: nat, mode: Mode, t: Lexeme, end: nat)
    requires i < |content| && t == NextLexeme(content, i, mode) && i + t.size <= end <= |content|
    requires Lex(content, i + t.size, t.next) ==
             Cells(content, i + t.size, end - i - t.size, t.kind) + Lex(content, end, Normal)
    ensures Lex(content, i, mode) == Cells(content, i, end - i, t.kind) + Lex(content, end, Normal)
  {
    hide NextLexeme, Cells;
    CellsJoin(content, i, t.size, end - i - t.size, t.kind, Lex(content, end, Normal));
  }

  lemma {:induction false} RunEndsHere(content: seq<byte>, k: nat, mode: Mode, kind: Kind)
    requires k <= |content| && (mode.Normal? || k == |content|)
    ensures Lex(content, k, mode) == Cells(content, k, 0, kind) + Lex(content, k, Normal)
  {
  }

  lemma {:induction false} BlockRuns(content: seq<byte>, k: nat)
    requires k <= |content|
    ensures var end := UpTo(content, Comment, CloseAt(content, k), 2).end;
            Lex(content, k, BlockComment) == Cells(content, k, end - k, Comment) + Lex(content, end, Normal)
    decreases |content| - k
  {
    hide Lex, Cells;
    if k == |content| {
      RunEndsHere(content, k, BlockComment, Comment);
    } else {
      var t := NextLexeme(content, k, BlockComment);
      if t.next.Normal? {
        RunEndsHere(content, k + 2, Normal, Comment);
      } else {
        BlockRuns(content, k + 1);
      }
      OneLexeme(content, k, BlockComment, t, UpTo(content, Comment, CloseAt(content, k), 2).end);
    }
  }

  lemma {:induction false} LineRuns(content: seq<byte>, k: nat)
    requires k <= |content|
    ensures var end := BreakAt(content, k);
            Lex(content, k, LineComment) == Cells(content, k, end - k, Comment) + Lex(content, end, Normal)
    decreases |content| - k
  {
    hide Lex, Cells;
    if k == |content| {
      RunEndsHere(content, k, LineComment, Comment);
    } else if content[k] in {CR, LF} {
      BreakEndsComment(content, k);
      RunEndsHere(content, k, Normal, Comment);
    } else {
      LineRuns(content, k + 1);
      OneLexeme(content, k, LineComment, NextLexeme(content, k, LineComment), BreakAt(content, k));
    }
  }

  /** A line break is read as code, whether or not a line comment ends there. */
  lemma {:induction false} BreakEndsComment(content: seq<byte>, k: nat)
    requires k < |content| && content[k] in {CR, LF}
    ensures Lex(content, k, LineComment) == Lex(content, k, Normal)
  {
    assert NextLexeme(content, k, LineComment) == NextLexeme(content, k, Normal);
  }

  /** Nothing that stands right before `k` reaches into what follows: no open escape, no half of a doubled delimiter. */
  predicate AtUnit(content: seq<byte>, lo: nat, k: nat, d: byte)
    requires lo <= k <= |content|
  {
    !Escaped(content, lo, k) && Unescaped(content, lo, k, d) % 2 == 0
  }

  lemma {:induction false} EscapeStep(content: seq<byte>, lo: nat, k: nat, d: byte)
    requires lo <= k && k + 1 < |content| && AtUnit(content, lo, k, d) && content[k] == BACKSLASH != d
    ensures AtUnit(content, lo, k + 2, d) && !Closes(content, lo, k, d) && !Closes(content, lo, k + 1, d)
  {
    assert Escaped(content, lo, k + 1);
    assert RunBefore(content, lo, k + 1, d) == 0;
  }

  lemma {:induction false} OneMore(content: seq<byte>, lo: nat, k: nat, d: byte)
    requires lo <= k < |content| && content[k] == d && !Escaped(content, lo, k)
    ensures Unescaped(content, lo, k + 1, d) == Unescaped(content, lo, k, d) + 1
  {
  }

  lemma {:induction false} DelimiterStep(content: seq<byte>, lo: nat, k: nat, d: byte)
    requires lo <= k < |content| && AtUnit(content, lo, k, d) && content[k] == d != BACKSLASH
    ensures Closes(content, lo, k, d) <==> !(k + 1 < |content| && content[k + 1] == d)
    ensures k + 1 < |content| && content[k + 1] == d ==>
              AtUnit(content, lo, k + 2, d) && !Closes(content, lo, k + 1, d)
  {
    hide Escaped, Unescaped, RunBefore;
    OneMore(content, lo, k, d);
    Unopened(content, lo, k, d);
    if k + 1 < |content| && content[k + 1] == d {
      OneMore(content, lo, k + 1, d);
      Unopened(content, lo, k + 1, d);
    }
  }

  lemma {:induction false} Unopened(content: seq<byte>, lo: nat, k: nat, d: byte)
    requires lo <= k < |content| && content[k] == d != BACKSLASH
    ensures !Escaped(content, lo, k + 1)
  {
  }

  lemma {:induction false} QuoteRuns(content: seq<byte>, lo: nat, k: nat, mode: Mode)
    requires lo <= k <= |content| && mode.Quoting() && AtUnit(content, lo, k, mode.Delimiter())
    ensures var end := UpTo(content, Quoted, QuoteAt(content, lo, k, mode.Delimiter()), 1).end;
            Lex(content, k, mode) == Cells(content, k, end - k, Quoted) + Lex(content, end, Normal)
    decreases |content| - k
  {
    hide Closes, AtUnit, Lex, Cells;
    var d := mode.Delimiter();
    if k == |content| {
      RunEndsHere(content, k, mode, Quoted);
    } else {
      var t := NextLexeme(content, k, mode);
      if content[k] == BACKSLASH && k + 1 < |content| {
        EscapeStep(content, lo, k, d);
      } else if content[k] == d {
        DelimiterStep(content, lo, k, d);
      } else {
        PlainStep(content, lo, k, d);
      }
      if Closes(content, lo, k, d) || k + t.size == |content| {
        RunEndsHere(content, k + t.size, t.next, Quoted);
      } else {
        QuoteRuns(content, lo, k + t.size, mode);
      }
      OneLexeme(content, k, mode, t, UpTo(content, Quoted, QuoteAt(content, lo, k, d), 1).end);
    }
  }

  lemma {:induction false} PlainStep(content: seq<byte>, lo: nat, k: nat, d: byte)
    requires lo <= k < |content| && AtUnit(content, lo, k, d) && content[k] != d
    ensures !Closes(content, lo, k, d)
    ensures content[k] != BACKSLASH ==> AtUnit(content, lo, k + 1, d)
  {
  }

  /** What opens in code and where it ends is a matter of the bytes: a quoted text ends at its first delimiter that is
      neither escaped nor doubled, a block comment at its first star and slash, a line comment before the first line
      break, and any other byte is code; an end that is missing is the end of the script. */
  lemma {:induction false} LexIsByRegion(content: seq<byte>, i: nat)
    requires i < |content|
    ensures var r := RegionAt(content, i);
            Lex(content, i, Normal) == Cells(content, i, r.end - i, r.kind) + Lex(content, r.end, Normal)
  {
    hide Lex, Cells, QuoteAt, CloseAt, BreakAt;
    var r := RegionAt(content, i);
    var t := NextLexeme(content, i, Normal);
    if r.kind == Quoted {
      NothingBefore(content, i + 1, t.next.Delimiter());
      QuoteRuns(content, i + 1, i + 1, t.next);
    } else if PairAt(content, i, SLASH, STAR) {
      BlockRuns(content, i + 2);
    } else if r.kind == Comment {
      LineRuns(content, i + t.size);
      BreakLater(content, i, i + t.size);
    } else {
      RunEndsHere(content, i + 1, Normal, Code);
    }
    OneLexeme(content, i, Normal, t, r.end);
  }

  lemma {:induction false} NothingBefore(content: seq<byte>, lo: nat, d: byte)
    requires lo <= |content|
    ensures AtUnit(content, lo, lo, d)
  {
  }

  lemma {:induction false} BreakLater(content: seq<byte>, i: nat, k: nat)
    requires i <= k <= |content| && forall m :: i <= m < k ==> content[m] !in {CR, LF}
    ensures BreakAt(content, i) == BreakAt(content, k)
  {
  }

  /** So the classification is that of the regions, from each place where the reading stands in code to the next. */
  lemma {:induction false} RegionIsClassified(content: seq<byte>, q: seq<Cell>, i: nat)
    requires Classified(content, q, i, Normal) && i < |content|
    ensures var r := RegionAt(content, i);
            (forall k :: i <= k < r.end ==> q[k].kind == r.kind) && Classified(content, q, r.end, Normal)
  {
    hide RegionAt, Lex;
    var r := RegionAt(content, i);
    LexIsByRegion(content, i);
    var head, rest := Cells(content, i, r.end - i, r.kind), Lex(content, r.end, Normal);
    assert forall k :: i <= k < r.end ==> q[k] == q[i..][k - i] == head[k - i];
    assert q[r.end..] == q[i..][r.end - i..] == rest;
  }

  // ----- stage two: which classified bytes are dropped -----

  predicate IsBlank(x: Cell) { x.kind == Code && (x.value == SPACE || x.value == TAB) }

  predicate IsBreak(x: Cell) { x.kind == Code && (x.value == CR || x.value == LF) }

  predicate IsComment(x: Cell) { x.kind == Comment }

  /** Only spaces, tabs and comments from `b` to `e`. */
  predicate Bare(q: seq<Cell>, b: nat, e: nat)
    requires e <= |q|
  {
    forall k :: b <= k < e ==> IsBlank(q[k]) || IsComment(q[k])
  }

  predicate HasComment(q: seq<Cell>, b: nat, e: nat)
    requires e <= |q|
  {
    exists k :: b <= k < e && IsComment(q[k])
  }

  /** The line break at `i` ends a line; the CR of a CR LF pair leaves that to the LF. */
  predicate EndsLine(q: seq<Cell>, i: nat)
    requires i < |q|
  {
    IsBreak(q[i]) && !(q[i].value == CR && i + 1 < |q| && IsBreak(q[i + 1]) && q[i + 1].value == LF)
  }

  function LineBegin(q: seq<Cell>, i: nat): (r: nat)
    requires i <= |q|
    ensures r <= i
  {
    if i == 0 || EndsLine(q, i - 1) then i else LineBegin(q, i - 1)
  }

  /** A line from `b` to the line break at `e` that holds comments and otherwise at most blanks. */
  predicate CommentLine(q: seq<Cell>, b: nat, e: nat)
    requires b <= e < |q|
  {
    IsBreak(q[e]) && Bare(q, b, e) && HasComment(q, b, e)
  }

  /** The byte belongs to such a line or to its line break. */
  ghost predicate OnCommentLine(q: seq<Cell>, i: nat)
    requires i < |q|
  {
    exists e :: LineBegin(q, i) <= e < |q| && CommentLine(q, LineBegin(q, i), e)
  }

  /** Nothing but blanks and comments precede the byte on its line, and a comment follows before anything else. */
  ghost predicate IndentsComment(q: seq<Cell>, i: nat)
    requires i < |q|
  {
    exists j :: i < j < |q| && IsComment(q[j]) && Bare(q, LineBegin(q, i), j)
  }

  ghost predicate Dropped(q: seq<Cell>, i: nat)
    requires i < |q|
  {
    IsComment(q[i]) || OnCommentLine(q, i) || IndentsComment(q, i)
  }

  /** The first `n` cells without the dropped ones. */
  ghost function Retained(q: seq<Cell>, n: nat): seq<Cell>
    requires n <= |q|
  {
    if n == 0 then [] else Retained(q, n - 1) + (if Dropped(q, n - 1) then [] else [q[n - 1]])
  }

  function Bytes(q: seq<Cell>): seq<byte> {
    seq(|q|, k requires 0 <= k < |q| => q[k].value)
  }

  /** What is left of a script: classify every byte, then drop. */
  ghost function Stripped(content: seq<byte>): seq<byte> {
    var q := Lex(content, 0, Normal);
    Bytes(Retained(q, |q|))
  }

  // ----- the output of the pass while a line is still open -----

  function Visible(q: seq<Cell>, b: nat, e: nat): seq<Cell>
    requires e <= |q|
  {
    if e <= b then [] else Visible(q, b, e - 1) + (if IsComment(q[e - 1]) then [] else [q[e - 1]])
  }

  /** The end of the last comment in `b..e` that only blanks and comments precede, or `b`. */
  function Cut(q: seq<Cell>, b: nat, e: nat): (r: nat)
    requires b <= e <= |q|
    ensures b <= r <= e
  {
    if b == e then b else if Bare(q, b, e) && IsComment(q[e - 1]) then e else Cut(q, b, e - 1)
  }

  ghost predicate LineStartsAt(q: seq<Cell>, b: nat)
    requires b <= |q|
  {
    b == 0 || EndsLine(q, b - 1)
  }

  ghost predicate Unbroken(q: seq<Cell>, b: nat, e: nat)
    requires e <= |q|
  {
    forall k :: b <= k < e ==> !IsBreak(q[k])
  }

  lemma {:induction false} CutIsLastLeadingComment(q: seq<Cell>, b: nat, e: nat)
    requires b <= e <= |q|
    ensures var c := Cut(q, b, e);
      && (c > b ==> Bare(q, b, c) && IsComment(q[c - 1]))
      && forall j :: c <= j < e && IsComment(q[j]) ==> !Bare(q, b, j)
  {
    if b < e && !(Bare(q, b, e) && IsComment(q[e - 1])) {
      CutIsLastLeadingComment(q, b, e - 1);
    }
  }

  lemma {:induction false} LineBeginIs(q: seq<Cell>, b: nat, i: nat)
    requires b <= i <= |q| && LineStartsAt(q, b)
    requires forall k :: b <= k < i ==> !EndsLine(q, k)
    ensures LineBegin(q, i) == b
  {
    if b < i {
      LineBeginIs(q, b, i - 1);
    }
  }

  lemma {:induction false} OnCommentLineIs(q: seq<Cell>, b: nat, m: nat, i: nat)
    requires b <= m < |q| && i < |q| && LineBegin(q, i) == b && IsBreak(q[m]) && Unbroken(q, b, m)
    ensures OnCommentLine(q, i) <==> CommentLine(q, b, m)
  {
  }

  /** Inside a line, the bytes before the last leading comment are its indentation. */
  lemma {:induction false} DroppedOnLine(q: seq<Cell>, b: nat, m: nat, i: nat)
    requires b <= i < m <= |q| && LineStartsAt(q, b) && Unbroken(q, b, m)
    requires m == |q| || IsBreak(q[m])
    ensures Dropped(q, i) <==> (m < |q| && CommentLine(q, b, m)) || IsComment(q[i]) || i < Cut(q, b, m)
  {
    LineBeginIs(q, b, i);
    CutIsLastLeadingComment(q, b, m);
    if m < |q| {
      OnCommentLineIs(q, b, m, i);
    }
  }

  lemma {:induction false} LineRetained(q: seq<Cell>, b: nat, m: nat, i: nat)
    requires b <= i <= m <= |q| && LineStartsAt(q, b) && Unbroken(q, b, m)
    requires m == |q| || IsBreak(q[m])
    ensures m < |q| && CommentLine(q, b, m) ==> Retained(q, i) == Retained(q, b)
    ensures m == |q| || !CommentLine(q, b, m) ==> Retained(q, i) == Retained(q, b) + Visible(q, Cut(q, b, m), i)
  {
    hide Dropped, LineBegin, Cut, CommentLine, LineStartsAt, Unbroken, IsBreak;
    if b < i {
      LineRetained(q, b, m, i - 1);
      DroppedOnLine(q, b, m, i - 1);
    }
  }

  /** A line break, CR LF taken together, goes exactly when the text of its line is comments and blanks. */
  lemma {:induction false} BreakDropped(q: seq<Cell>, b: nat, m: nat, i: nat)
    requires b <= m <= i < |q| && LineStartsAt(q, b) && Unbroken(q, b, m) && IsBreak(q[m])
    requires i == m || (i == m + 1 && !EndsLine(q, m))
    ensures Dropped(q, i) <==> CommentLine(q, b, m)
  {
    LineBeginIs(q, b, i);
    OnCommentLineIs(q, b, m, i);
  }

  // ----- the program -----

  /** What the pass has written when the open line began at `b` and it has read up to `i`. */
  ghost function Written(q: seq<Cell>, b: nat, i: nat): seq<Cell>
    requires b <= i <= |q|
  {
    Retained(q, b) + Visible(q, Cut(q, b, i), i)
  }

  /** The open line begins at `b`, or `b` is the LF left over from a CR LF that stays. */
  ghost predicate OpenLine(q: seq<Cell>, b: nat, i: nat)
    requires i <= |q|
  {
    && b <= i
    && Unbroken(q, b, i)
    && (LineStartsAt(q, b) || (i == b < |q| && IsBreak(q[b]) && q[b].value == LF && !Dropped(q, b)))
  }

  lemma {:induction false} LineGrows(q: seq<Cell>, b: nat, i: nat)
    requires b <= i < |q|
    ensures Bare(q, b, i + 1) <==> Bare(q, b, i) && (IsBlank(q[i]) || IsComment(q[i]))
    ensures HasComment(q, b, i + 1) <==> HasComment(q, b, i) || IsComment(q[i])
  {
  }

  lemma {:induction false} CutGrows(q: seq<Cell>, b: nat, i: nat)
    requires b <= i < |q|
    ensures Cut(q, b, i + 1) == if Bare(q, b, i) && IsComment(q[i]) then i + 1 else Cut(q, b, i)
  {
    hide Bare;
    LineGrows(q, b, i);
  }

  lemma {:induction false} WrittenGrows(q: seq<Cell>, b: nat, i: nat)
    requires i < |q| && OpenLine(q, b, i) && !IsBreak(q[i])
    ensures OpenLine(q, b, i + 1)
    ensures Written(q, b, i + 1) ==
            if !IsComment(q[i]) then Written(q, b, i) + [q[i]]
            else if Bare(q, b, i) then Retained(q, b)
            else Written(q, b, i)
    ensures Bare(q, b, i + 1) <==> Bare(q, b, i) && (IsBlank(q[i]) || IsComment(q[i]))
    ensures HasComment(q, b, i + 1) <==> HasComment(q, b, i) || IsComment(q[i])
  {
    hide Retained, Dropped, LineStartsAt, Bare, HasComment, Cut;
    LineGrows(q, b, i);
    CutGrows(q, b, i);
  }

  /** The line break at `i` ends the open line; a comment line goes with its break. */
  lemma {:induction false} CommentLineCloses(q: seq<Cell>, b: nat, i: nat)
    requires i < |q| && OpenLine(q, b, i) && CommentLine(q, b, i)
    ensures var next := if EndsLine(q, i) then i + 1 else i + 2;
      next <= |q| && OpenLine(q, next, next) && Retained(q, next) == Retained(q, b)
  {
    hide Dropped, LineBegin, Cut, Visible, Bare;
    LineRetained(q, b, i, i);
    BreakDropped(q, b, i, i);
    if !EndsLine(q, i) {
      BreakDropped(q, b, i, i + 1);
      assert EndsLine(q, i + 1);
    }
  }

  /** Any other line stays with its break. */
  lemma {:induction false} TextLineCloses(q: seq<Cell>, b: nat, i: nat)
    requires i < |q| && OpenLine(q, b, i) && IsBreak(q[i]) && !CommentLine(q, b, i)
    ensures OpenLine(q, i + 1, i + 1) && Retained(q, i + 1) == Written(q, b, i) + [q[i]]
  {
    if LineStartsAt(q, b) {
      LineRetained(q, b, i, i);
      BreakDropped(q, b, i, i);
      if !EndsLine(q, i) {
        BreakDropped(q, b, i, i + 1);
      }
    }
  }

  lemma {:induction false} AllWritten(q: seq<Cell>, b: nat)
    requires OpenLine(q, b, |q|)
    ensures Written(q, b, |q|) == Retained(q, |q|)
  {
    LineRetained(q, b, |q|, |q|);
  }

  /** The variables of the loop. */
  datatype Pass = Pass(index: nat, state: Mode, lineStart: bool, lineCommentStandalone: bool,
                       blockCommentStandalone: bool, result: seq<byte>, lineOutputStart: nat)

  /** What one turn of the loop does, whatever the branch, when it reads the lexeme `t`;
      after a comment line it reads CR LF together. */
  ghost function Turn(content: seq<byte>, p: Pass, t: Lexeme): Pass
    requires p.index + t.size <= |content| && 1 <= t.size <= 2 && p.lineOutputStart <= |p.result|
  {
    var c := content[p.index];
    if t.kind == Code && (c == CR || c == LF) then
      if p.lineCommentStandalone || p.blockCommentStandalone then
        var crlf := c == CR && p.index + 1 < |content| && content[p.index + 1] == LF;
        var result := if p.blockCommentStandalone then p.result[..p.lineOutputStart] else p.result;
        Pass(p.index + (if crlf then 2 else 1), Normal, true, false, false, result, |result|)
      else Pass(p.index + 1, Normal, true, false, false, p.result + [c], |p.result| + 1)
    else if t.kind == Comment then
      Pass(p.index + t.size, t.next, p.lineStart, t.next.LineComment? && p.lineStart,
           !t.next.LineComment? && p.lineStart,
           if p.lineStart && p.state.Normal? then p.result[..p.lineOutputStart] else p.result, p.lineOutputStart)
    else
      var blank := t.kind == Code && (c == SPACE || c == TAB);
      Pass(p.index + t.size, t.next, p.lineStart && blank, false, p.blockCommentStandalone && blank,
           if t.size == 1 then p.result + [c] else p.result + [c] + [content[p.index + 1]], p.lineOutputStart)
  }

  /** Where the classification stands between two turns. */
  ghost predicate Classified(content: seq<byte>, q: seq<Cell>, i: nat, mode: Mode) {
    i <= |q| == |content| && q[i..] == Lex(content, i, mode)
  }

  ghost predicate SameValues(content: seq<byte>, q: seq<Cell>) {
    |q| == |content| && forall k :: 0 <= k < |q| ==> q[k].value == content[k]
  }

  /** Where the output stands between two turns; the open line begins at `b`. */
  ghost predicate Accounted(q: seq<Cell>, b: nat, p: Pass) {
    && p.index <= |q|
    && OpenLine(q, b, p.index)
    && p.result == Bytes(Written(q, b, p.index))
    && p.lineOutputStart == |Retained(q, b)|
  }

  /** What the flags mean between two turns. */
  ghost predicate Flagged(q: seq<Cell>, b: nat, p: Pass)
    requires p.index <= |q|
  {
    var commentsOnly := Bare(q, b, p.index) && HasComment(q, b, p.index);
    && p.lineStart == Bare(q, b, p.index)
    && p.lineCommentStandalone == (p.state.LineComment? && commentsOnly)
    && p.blockCommentStandalone == ((p.state.Normal? || p.state.BlockComment?) && commentsOnly)
    && (p.state.Quoting() ==> !p.lineStart)
    && (p.state.LineComment? || p.state.BlockComment? ==>
          HasComment(q, b, p.index) && (p.lineStart ==> |p.result| == p.lineOutputStart))
  }

  ghost predicate InStep(content: seq<byte>, q: seq<Cell>, b: nat, p: Pass) {
    SameValues(content, q) && Classified(content, q, p.index, p.state) && Accounted(q, b, p) && Flagged(q, b, p)
  }

  /** How the kind of a lexeme ties the mode before it to the mode after it. */
  predicate Shape(mode: Mode, c: byte, t: Lexeme) {
    1 <= t.size <= 2 &&
    match t.kind
    case Code =>
      t.size == 1 && t.next.Normal? && (mode.Normal? || (mode.LineComment? && (c == CR || c == LF)))
    case Quoted => (mode.Normal? || mode.Quoting()) && (t.next.Normal? || t.next.Quoting())
    case Comment =>
      !mode.Quoting() && !t.next.Quoting() && (t.next.LineComment? ==> mode.Normal? || mode.LineComment?)
  }

  lemma {:induction false} NextLexemeShape(content: seq<byte>, i: nat, mode: Mode)
    requires i < |content|
    ensures Shape(mode, content[i], NextLexeme(content, i, mode))
  {
  }

  /** The lexeme `t` at the position of `p` and its cells. */
  ghost predicate Reads(content: seq<byte>, q: seq<Cell>, p: Pass, t: Lexeme) {
    && p.index + t.size <= |content| == |q|
    && p.index < |content| && Shape(p.state, content[p.index], t)
    && q[p.index].kind == t.kind
    && q[p.index + t.size - 1].kind == t.kind
  }

  lemma {:induction false} HeadCells(content: seq<byte>, q: seq<Cell>, i: nat, t: Lexeme, rest: seq<Cell>)
    requires i + t.size <= |content| == |q| && t.size > 0 && q[i..] == Cells(content, i, t.size, t.kind) + rest
    ensures q[i].kind == q[i + t.size - 1].kind == t.kind && q[i + t.size..] == rest
  {
    assert q[i] == q[i..][0];
    assert q[i + t.size - 1] == q[i..][t.size - 1];
    assert q[i + t.size..] == q[i..][t.size..];
  }

  lemma {:induction false} LexUnfolds(content: seq<byte>, i: nat, mode: Mode, t: Lexeme)
    requires i < |content| && t == NextLexeme(content, i, mode)
    ensures Lex(content, i, mode) == Cells(content, i, t.size, t.kind) + Lex(content, i + t.size, t.next)
  {
    hide NextLexeme, Cells;
  }

  lemma {:induction false} LexAdvances(content: seq<byte>, q: seq<Cell>, i: nat, mode: Mode, t: Lexeme)
    requires Classified(content, q, i, mode) && i < |content| && t == NextLexeme(content, i, mode)
    ensures q[i].kind == q[i + t.size - 1].kind == t.kind
    ensures Classified(content, q, i + t.size, t.next)
  {
    var rest := Lex(content, i + t.size, t.next);
    LexUnfolds(content, i, mode, t);
    HeadCells(content, q, i, t, rest);
  }

  lemma {:induction false} LineFeedAdvances(content: seq<byte>, q: seq<Cell>, i: nat)
    requires Classified(content, q, i, Normal) && i < |content| && content[i] == LF
    ensures q[i].kind == Code && Classified(content, q, i + 1, Normal)
  {
    LexAdvances(content, q, i, Normal, Lexeme(1, Code, Normal));
  }

  lemma {:induction false} Prefix(q: seq<Cell>, b: nat, p: Pass)
    requires Accounted(q, b, p)
    ensures p.lineOutputStart <= |p.result| && p.result[..p.lineOutputStart] == Bytes(Retained(q, b))
    ensures p.lineOutputStart == |p.result| ==> p.result == Bytes(Retained(q, b))
  {
  }

  lemma {:induction false} CommentLineTurn(content: seq<byte>, q: seq<Cell>, b: nat, p: Pass, t: Lexeme)
    returns (next: nat)
    requires SameValues(content, q) && Accounted(q, b, p) && Flagged(q, b, p) && Reads(content, q, p, t) &&
            CommentLine(q, b, p.index)
    requires p.index + 1 < |q| && content[p.index + 1] == LF ==> q[p.index + 1].kind == Code
    ensures p.lineOutputStart <= |p.result| && Accounted(q, next, Turn(content, p, t)) &&
            Flagged(q, next, Turn(content, p, t))
  {
    hide Dropped, LineBegin, Cut, Retained, LineStartsAt;
    CommentLineCloses(q, b, p.index);
    Prefix(q, b, p);
    next := Turn(content, p, t).index;
    assert Visible(q, next, next) == [];
  }

  lemma {:induction false} TextLineTurn(content: seq<byte>, q: seq<Cell>, b: nat, p: Pass, t: Lexeme)
    requires SameValues(content, q) && Accounted(q, b, p) && Flagged(q, b, p) && Reads(content, q, p, t)
    requires IsBreak(q[p.index]) && !CommentLine(q, b, p.index)
    ensures p.lineOutputStart <= |p.result|
    ensures Accounted(q, p.index + 1, Turn(content, p, t)) && Flagged(q, p.index + 1, Turn(content, p, t))
  {
    Prefix(q, b, p);
    TextLineCloses(q, b, p.index);
    assert Visible(q, p.index + 1, p.index + 1) == [];
  }

  lemma {:induction false} BytesAppend(w: seq<Cell>, x: Cell)
    ensures Bytes(w + [x]) == Bytes(w) + [x.value]
  {
  }

  /** One cell of a comment: the output falls back to the start of the line, or stays. */
  lemma {:induction false} CommentCell(q: seq<Cell>, b: nat, i: nat)
    requires i < |q| && OpenLine(q, b, i) && IsComment(q[i])
    ensures OpenLine(q, b, i + 1) && HasComment(q, b, i + 1) && Bare(q, b, i + 1) == Bare(q, b, i)
    ensures Bytes(Written(q, b, i + 1)) == Bytes(if Bare(q, b, i) then Retained(q, b) else Written(q, b, i))
  {
    WrittenGrows(q, b, i);
  }

  /** One cell of text: it is appended. */
  lemma {:induction false} TextCell(q: seq<Cell>, b: nat, i: nat)
    requires i < |q| && OpenLine(q, b, i) && !IsComment(q[i]) && !IsBreak(q[i])
    ensures OpenLine(q, b, i + 1)
    ensures Bytes(Written(q, b, i + 1)) == Bytes(Written(q, b, i)) + [q[i].value]
    ensures Bare(q, b, i + 1) == (Bare(q, b, i) && IsBlank(q[i]))
    ensures HasComment(q, b, i + 1) == HasComment(q, b, i)
  {
    WrittenGrows(q, b, i);
    BytesAppend(Written(q, b, i), q[i]);
  }

  lemma {:induction false} CommentTurn(content: seq<byte>, q: seq<Cell>, b: nat, p: Pass, t: Lexeme)
    requires SameValues(content, q) && Accounted(q, b, p) && Flagged(q, b, p) && Reads(content, q, p, t)
    requires t.kind == Comment
    ensures p.lineOutputStart <= |p.result| && Accounted(q, b, Turn(content, p, t)) &&
            Flagged(q, b, Turn(content, p, t))
  {
    hide Retained, Visible, Cut, Bare, HasComment, OpenLine;
    Prefix(q, b, p);
    CommentCell(q, b, p.index);
    if t.size == 2 {
      CommentCell(q, b, p.index + 1);
    }
  }

  lemma {:induction false} CodeTurn(content: seq<byte>, q: seq<Cell>, b: nat, p: Pass, t: Lexeme)
    requires SameValues(content, q) && Accounted(q, b, p) && Flagged(q, b, p) && Reads(content, q, p, t)
    requires t.kind == Code && !IsBreak(q[p.index])
    ensures p.lineOutputStart <= |p.result| && Accounted(q, b, Turn(content, p, t)) &&
            Flagged(q, b, Turn(content, p, t))
  {
    hide Retained, Visible, Cut, Bare, HasComment, OpenLine;
    Prefix(q, b, p);
    TextCell(q, b, p.index);
  }

  lemma {:induction false} QuotedTurn(content: seq<byte>, q: seq<Cell>, b: nat, p: Pass, t: Lexeme)
    requires SameValues(content, q) && Accounted(q, b, p) && Flagged(q, b, p) && Reads(content, q, p, t)
    requires t.kind == Quoted
    ensures p.lineOutputStart <= |p.result| && Accounted(q, b, Turn(content, p, t)) &&
            Flagged(q, b, Turn(content, p, t))
  {
    hide Retained, Visible, Cut, Bare, HasComment, OpenLine;
    Prefix(q, b, p);
    TextCell(q, b, p.index);
    if t.size == 2 {
      TextCell(q, b, p.index + 1);
    }
  }

  lemma {:induction false} ClassifiedTurn(content: seq<byte>, q: seq<Cell>, p: Pass, t: Lexeme)
    requires Classified(content, q, p.index, p.state) && p.index < |content|
    requires t == NextLexeme(content, p.index, p.state) && p.lineOutputStart <= |p.result|
    ensures Reads(content, q, p, t)
    ensures Classified(content, q, Turn(content, p, t).index, Turn(content, p, t).state)
    ensures t.kind == Code && p.index + 1 < |q| && content[p.index + 1] == LF ==> q[p.index + 1].kind == Code
  {
    hide NextLexeme, Lex, Cells;
    LexAdvances(content, q, p.index, p.state, t);
    NextLexemeShape(content, p.index, p.state);
    if t.kind == Code && p.index + 1 < |q| && content[p.index + 1] == LF {
      LineFeedAdvances(content, q, p.index + 1);
    }
  }

  lemma {:induction false} TurnKeepsStep(content: seq<byte>, q: seq<Cell>, b: nat, p: Pass, t: Lexeme)
    returns (next: nat)
    requires InStep(content, q, b, p) && p.index < |content| && t == NextLexeme(content, p.index, p.state)
    ensures p.lineOutputStart <= |p.result|
    ensures InStep(content, q, next, Turn(content, p, t))
  {
    hide Retained, Visible, Cut, Flagged, Classified;
    Prefix(q, b, p);
    ClassifiedTurn(content, q, p, t);
    next := b;
    if t.kind == Comment {
      CommentTurn(content, q, b, p, t);
    } else if t.kind == Quoted {
      QuotedTurn(content, q, b, p, t);
    } else if !IsBreak(q[p.index]) {
      CodeTurn(content, q, b, p, t);
    } else if CommentLine(q, b, p.index) {
      next := CommentLineTurn(content, q, b, p, t);
    } else {
      TextLineTurn(content, q, b, p, t);
      next := p.index + 1;
    }
  }

  /** The output of the loop from the state `p` on. */
  ghost function Run(content: seq<byte>, p: Pass): seq<byte>
    requires p.index <= |content|
    decreases |content| - p.index
  {
    if p.index == |content| then p.result
    else if p.lineOutputStart > |p.result| then []
    else Run(content, Turn(content, p, NextLexeme(content, p.index, p.state)))
  }

  lemma {:induction false} RunWritesRetained(content: seq<byte>, q: seq<Cell>, b: nat, p: Pass)
    requires InStep(content, q, b, p)
    ensures Run(content, p) == Bytes(Retained(q, |q|))
    decreases |content| - p.index
  {
    if p.index == |content| {
      AllWritten(q, b);
    } else {
      var t := NextLexeme(content, p.index, p.state);
      var next := TurnKeepsStep(content, q, b, p, t);
      RunWritesRetained(content, q, next, Turn(content, p, t));
    }
  }

  const START := Pass(0, Normal, true, false, false, [], 0)

  lemma {:induction false} RunIsStripped(content: seq<byte>)
    ensures Run(content, START) == Stripped(content)
  {
    LexCoversInput(content, 0, Normal);
    RunWritesRetained(content, Lex(content, 0, Normal), 0, START);
  }

  /** How the flags go with the state. */
  ghost predicate Coherent(content: seq<byte>, p: Pass) {
    && p.index <= |content| && p.lineOutputStart <= |p.result|
    && p.lineCommentStandalone == (p.state.LineComment? && p.lineStart)
    && (p.state.BlockComment? ==> p.blockCommentStandalone == p.lineStart)
    && (p.blockCommentStandalone ==> p.lineStart && (p.state.Normal? || p.state.BlockComment?))
    && (p.state.Quoting() ==> !p.lineStart)
  }

  lemma {:induction false} TurnIsCoherent(content: seq<byte>, p: Pass, t: Lexeme)
    requires Coherent(content, p) && p.index < |content| && t == NextLexeme(content, p.index, p.state)
    ensures Coherent(content, Turn(content, p, t)) && Turn(content, p, t).index > p.index
    ensures Run(content, p) == Run(content, Turn(content, p, t))
  {
    NextLexemeShape(content, p.index, p.state);
  }

  lemma {:induction false} RunEnds(content: seq<byte>, p: Pass)
    requires p.index == |content|
    ensures Run(content, p) == p.result
  {
  }

  /** The single pass with truncation leaves exactly the bytes the two-stage description leaves. */
  method StripSqlComments(content: seq<byte>) returns (result: seq<byte>)
    ensures result == Stripped(content)
  {
    hide Run, Stripped;
    result := [];
    var state := Normal;
    var lineStart := true;
    var lineOutputStart: nat := 0;
    var lineCommentStandalone := false;
    var blockCommentStandalone := false;
    var index: nat := 0;
    ghost var p := START;
    RunIsStripped(content);
    while index < |content|
      invariant p.index == index && p.state == state && p.result == result && p.lineOutputStart == lineOutputStart
      invariant p.lineStart == lineStart
      invariant p.lineCommentStandalone == lineCommentStandalone && p.blockCommentStandalone == blockCommentStandalone
      invariant Coherent(content, p) && Run(content, p) == Stripped(content)
      decreases |content| - index
    {
      var character := content[index];
      ghost var t := NextLexeme(content, index, state);
      TurnIsCoherent(content, p, t);
      p := Turn(content, p, t);
      match state {
        case Normal =>
          if character == CR {
            if blockCommentStandalone {
              result := result[..lineOutputStart];
              blockCommentStandalone := false;
              lineStart := true;
              lineOutputStart := |result|;
              index := index + 1;
              if index < |content| && content[index] == LF {
                index := index + 1;
              }
              continue;
            }
            result := result + [character];
            lineStart := true;
            lineOutputStart := |result|;
            index := index + 1;
            continue;
          }
          if character == LF {
            if blockCommentStandalone {
              result := result[..lineOutputStart];
              blockCommentStandalone := false;
              lineStart := true;
              lineOutputStart := |result|;
              index := index + 1;
              continue;
            }
            result := result + [character];
            lineStart := true;
            lineOutputStart := |result|;
            index := index + 1;
            continue;
          }
          if lineStart && (character == SPACE || character == TAB) {
            result := result + [character];
            index := index + 1;
            continue;
          }
          if blockCommentStandalone {
            blockCommentStandalone := false;
          }
          if character == SINGLE_QUOTE {
            result := result + [character];
            lineStart := false;
            state := SingleQuote;
            index := index + 1;
          } else if character == DOUBLE_QUOTE {
            result := result + [character];
            lineStart := false;
            state := DoubleQuote;
            index := index + 1;
          } else if character == BACKTICK {
            result := result + [character];
            lineStart := false;
            state := Backtick;
            index := index + 1;
          } else if character == HASH {
            if lineStart {
              result := result[..lineOutputStart];
              lineCommentStandalone := true;
            }
            state := LineComment;
            index := index + 1;
          } else if character == DASH {
            if index + 1 < |content| && content[index + 1] == DASH
               && (index + 2 == |content| || IsSqlWhitespace(content[index + 2])) {
              if lineStart {
                result := result[..lineOutputStart];
                lineCommentStandalone := true;
              }
              state := LineComment;
              index := index + 2;
              continue;
            }
            result := result + [character];
            lineStart := false;
            index := index + 1;
          } else if character == SLASH {
            if index + 1 < |content| && content[index + 1] == STAR {
              if lineStart {
                result := result[..lineOutputStart];
                blockCommentStandalone := true;
              }
              state := BlockComment;
              index := index + 2;
              continue;
            }
            result := result + [character];
            lineStart := false;
            index := index + 1;
          } else {
            result := result + [character];
            lineStart := false;
            index := index + 1;
          }
        case LineComment =>
          if character == CR {
            if lineCommentStandalone {
              lineCommentStandalone := false;
              lineStart := true;
              lineOutputStart := |result|;
              state := Normal;
              index := index + 1;
              if index < |content| && content[index] == LF {
                index := index + 1;
              }
              continue;
            }
            result := result + [character];
            lineStart := true;
            lineOutputStart := |result|;
            state := Normal;
            index := index + 1;
            continue;
          }
          if character == LF {
            if lineCommentStandalone {
              lineCommentStandalone := false;
              lineStart := true;
              lineOutputStart := |result|;
              state := Normal;
              index := index + 1;
              continue;
            }
            result := result + [character];
            lineStart := true;
            lineOutputStart := |result|;
            state := Normal;
          }
          index := index + 1;
        case BlockComment =>
          if character == STAR && index + 1 < |content| && content[index + 1] == SLASH {
            state := Normal;
            index := index + 2;
            continue;
          }
          index := index + 1;
        case _ =>
          result := result + [character];
          index := index + 1;
          if character == BACKSLASH && index < |content| {
            result := result + [content[index]];
            index := index + 1;
            continue;
          }
          if character == state.Delimiter() {
            if index < |content| && content[index] == character {
              result := result + [content[index]];
              index := index + 1;
              continue;
            }
            state := Normal;
          }
      }
    }
    RunEnds(content, p);
  }

  // ----- what the description promises -----

  lemma {:induction false} NoBreakInLine(q: seq<Cell>, i: nat, k: nat)
    requires i <= |q| && LineBegin(q, i) <= k < i
    ensures !EndsLine(q, k)
  {
    if k < i - 1 {
      NoBreakInLine(q, i - 1, k);
    }
  }

  /** Besides comments only spaces, tabs and line breaks ever go; quoted text and other code stay. */
  lemma {:induction false} OnlyBlanksGo(content: seq<byte>, i: nat)
    requires i < |content|
    ensures var q := Lex(content, 0, Normal);
      && |q| == |content|
      && (Dropped(q, i) ==> IsComment(q[i]) || (q[i].kind == Code && q[i].value in {SPACE, TAB, CR, LF}))
  {
    LexCoversInput(content, 0, Normal);
    var q := Lex(content, 0, Normal);
    if OnCommentLine(q, i) {
      var b := LineBegin(q, i);
      var e :| b <= e < |q| && CommentLine(q, b, e);
      if e < i {
        NoBreakInLine(q, i, e);
        if e + 1 < i {
          NoBreakInLine(q, i, e + 1);
        }
      }
    }
  }

  lemma {:induction false} BlanksAreCode(content: seq<byte>, q: seq<Cell>, b: nat, e: nat)
    requires Classified(content, q, b, Normal) && b <= e <= |content|
    requires forall k :: b <= k < e ==> content[k] in {SPACE, TAB}
    ensures Classified(content, q, e, Normal) && forall k :: b <= k < e ==> q[k].kind == Code
    decreases e - b
  {
    hide Lex;
    if b < e {
      RegionIsClassified(content, q, b);
      BlanksAreCode(content, q, b + 1, e);
    }
  }

  /** A line of the script that is spaces and tabs, a comment, whatever it holds, and more spaces and tabs goes with its
      line break. */
  lemma {:induction false} CommentOnlyLineGoes(content: seq<byte>, q: seq<Cell>, b: nat, c: nat, m: nat)
    requires SameValues(content, q) && Classified(content, q, b, Normal) && LineStartsAt(q, b)
    requires b <= c < |content| && RegionAt(content, c).kind == Comment && RegionAt(content, c).end <= m < |content|
    requires forall k :: b <= k < c || RegionAt(content, c).end <= k < m ==> content[k] in {SPACE, TAB}
    requires content[m] in {CR, LF}
    ensures forall k :: b <= k <= m ==> Dropped(q, k)
    ensures content[m] == CR && m + 1 < |content| && content[m + 1] == LF ==> Dropped(q, m + 1)
  {
    hide Lex, RegionAt, Dropped, CommentLine, EndsLine, LineStartsAt;
    CommentOnlyLineIs(content, q, b, c, m);
    forall k | b <= k <= m ensures Dropped(q, k) {
      CommentLineGoes(q, b, m, k);
    }
    if content[m] == CR && m + 1 < |content| && content[m + 1] == LF {
      BreakIsCode(content, q, m + 1);
      PairEndsOnce(q, m);
      CommentLineGoes(q, b, m, m + 1);
    }
  }

  lemma {:induction false} CommentOnlyLineIs(content: seq<byte>, q: seq<Cell>, b: nat, c: nat, m: nat)
    requires SameValues(content, q) && Classified(content, q, b, Normal)
    requires b <= c < |content| && RegionAt(content, c).kind == Comment && RegionAt(content, c).end <= m < |content|
    requires forall k :: b <= k < c || RegionAt(content, c).end <= k < m ==> content[k] in {SPACE, TAB}
    requires content[m] in {CR, LF}
    ensures CommentLine(q, b, m) && IsBreak(q[m]) && Classified(content, q, m + 1, Normal)
  {
    hide Lex, RegionAt;
    var e := RegionAt(content, c).end;
    BlanksAreCode(content, q, b, c);
    RegionIsClassified(content, q, c);
    BlanksAreCode(content, q, e, m);
    BreakIsCode(content, q, m);
    assert IsComment(q[c]);
  }

  lemma {:induction false} PairEndsOnce(q: seq<Cell>, m: nat)
    requires m + 1 < |q| && q[m].value == CR && IsBreak(q[m + 1]) && q[m + 1].value == LF
    ensures !EndsLine(q, m)
  {
  }

  lemma {:induction false} CommentLineGoes(q: seq<Cell>, b: nat, m: nat, k: nat)
    requires b <= m < |q| && LineStartsAt(q, b) && CommentLine(q, b, m)
    requires b <= k <= m || (k == m + 1 < |q| && !EndsLine(q, m))
    ensures Dropped(q, k)
  {
    LineBeginIs(q, b, k);
  }

  lemma {:induction false} BreakIsCode(content: seq<byte>, q: seq<Cell>, i: nat)
    requires Classified(content, q, i, Normal) && i < |content| && content[i] in {CR, LF}
    ensures q[i].kind == Code && Classified(content, q, i + 1, Normal)
  {
    hide Lex;
    RegionIsClassified(content, q, i);
  }

  /** Cells of `q` before `n` that are not dropped, at strictly ascending positions. */
  ghost predicate Picks(q: seq<Cell>, n: nat, r: seq<Cell>) {
    && (forall k :: 0 <= k < |r| ==> r[k].at < n <= |q| && r[k] == q[r[k].at] && !Dropped(q, r[k].at))
    && (forall j, k :: 0 <= j < k < |r| ==> r[j].at < r[k].at)
  }

  /** The output is a subsequence of the input: it picks cells in input order and changes none. */
  lemma {:induction false} RetainedPicks(content: seq<byte>, q: seq<Cell>, n: nat)
    requires q == Lex(content, 0, Normal) && n <= |q| == |content|
    ensures Picks(q, n, Retained(q, n))
  {
    hide Lex, Dropped;
    if n > 0 {
      RetainedPicks(content, q, n - 1);
      LexCoversInput(content, 0, Normal);
      assert q[n - 1].at == n - 1;
    }
  }

  lemma {:induction false} RetainedPrefix(q: seq<Cell>, m: nat, n: nat)
    requires m <= n <= |q|
    ensures Retained(q, m) <= Retained(q, n)
    ensures (forall k :: m <= k < n ==> !Dropped(q, k)) ==> Retained(q, n) == Retained(q, m) + q[m..n]
  {
    hide Dropped;
    if m < n {
      RetainedPrefix(q, m, n - 1);
      assert q[m..n] == q[m..n - 1] + [q[n - 1]];
    } else {
      assert q[m..n] == [];
    }
  }

  /** A run of quoted bytes, escapes and doubled quotes included, comes out as one block, and at
      the place its preceding bytes leave for it: quoted blocks keep their order. */
  lemma {:induction false} QuotedBlockSurvives(content: seq<byte>, q: seq<Cell>, s: nat, e: nat)
    requires q == Lex(content, 0, Normal) && s <= e <= |q| == |content|
    requires forall k :: s <= k < e ==> q[k].kind == Quoted
    ensures var at := |Retained(q, s)|;
      && at + (e - s) <= |Stripped(content)|
      && Stripped(content)[at..at + (e - s)] == content[s..e]
  {
    hide Dropped, Lex, Retained;
    LexCoversInput(content, 0, Normal);
    forall k | s <= k < e
      ensures !Dropped(q, k)
    {
      OnlyBlanksGo(content, k);
    }
    RetainedPrefix(q, s, e);
    RetainedPrefix(q, e, |q|);
    var at := |Retained(q, s)|;
    forall k | s <= k < e
      ensures Stripped(content)[at + (k - s)] == content[k]
    {
      assert Retained(q, |q|)[at + (k - s)] == q[k];
    }
  }

  lemma {:induction false} RetainedLength(q: seq<Cell>, n: nat)
    requires n <= |q|
    ensures |Retained(q, n)| <= n
    ensures |Retained(q, n)| == n <==> forall k :: 0 <= k < n ==> !Dropped(q, k)
  {
    hide Dropped;
    if n > 0 {
      RetainedLength(q, n - 1);
    }
  }

  lemma {:induction false} NothingGoesIffNoComment(q: seq<Cell>)
    ensures (forall k :: 0 <= k < |q| ==> !Dropped(q, k)) <==> !HasComment(q, 0, |q|)
  {
    if HasComment(q, 0, |q|) {
      var k :| 0 <= k < |q| && IsComment(q[k]);
      assert Dropped(q, k);
    }
  }

  /** A script comes back unchanged exactly when no comment opens in it. */
  lemma {:induction false} UnchangedIffNoComment(content: seq<byte>)
    ensures var q := Lex(content, 0, Normal);
      Stripped(content) == content <==> !HasComment(q, 0, |q|)
  {
    hide Dropped, Lex, Retained, HasComment;
    var q := Lex(content, 0, Normal);
    LexCoversInput(content, 0, Normal);
    NothingGoesIffNoComment(q);
    RetainedLength(q, |q|);
    RetainedPrefix(q, 0, |q|);
    assert |Retained(q, 0)| == 0 by {
      RetainedLength(q, 0);
    }
    if !HasComment(q, 0, |q|) {
      assert Retained(q, |q|) == q;
    }
  }

  lemma {:induction false} RunTurn(content: seq<byte>, p: Pass)
    requires p.index < |content| && p.lineOutputStart <= |p.result|
    ensures Run(content, p) == Run(content, Turn(content, p, NextLexeme(content, p.index, p.state)))
  {
  }

  // ----- stripping what has been stripped -----

  /** The position of the first cell from `k` on that is not a comment, or the end. */
  function NextText(q: seq<Cell>, k: nat): (r: nat)
    requires k <= |q|
    ensures k <= r <= |q| && (r < |q| ==> !IsComment(q[r]))
    ensures forall m :: k <= m < r ==> IsComment(q[m])
    decreases |q| - k
  {
    if k == |q| || !IsComment(q[k]) then k else NextText(q, k + 1)
  }

  predicate BlankFrom(q: seq<Cell>, k: nat)
    requires k <= |q|
  {
    NextText(q, k) == |q| || IsSqlWhitespace(q[NextText(q, k)].value)
  }

  /** Comments stand between two code bytes that open a comment where they meet: slash and star, or two dashes
      before white space or the end of the script. */
  predicate Joint(q: seq<Cell>, a: nat)
    requires a < |q|
  {
    var b := NextText(q, a + 1);
    && q[a].kind == Code && b < |q| && q[b].kind == Code
    && ((q[a].value == SLASH && q[b].value == STAR) ||
        (q[a].value == DASH && q[b].value == DASH && BlankFrom(q, b + 1)))
  }

  ghost predicate ReopensFrom(q: seq<Cell>, i: nat) { exists a :: i <= a < |q| && Joint(q, a) }

  /** Whether a reading of the bytes from `i` on, which starts in code or in a quoted text, meets a comment. A doubled
      quote is read as the end of one text and the start of the next. */
  predicate Opens(content: seq<byte>, i: nat, mode: Mode)
    requires i <= |content| && (mode.Normal? || mode.Quoting())
    decreases |content| - i
  {
    if i == |content| then false
    else if mode.Normal? then
      var t := NextLexeme(content, i, Normal);
      t.kind == Comment || Opens(content, i + 1, t.next)
    else if content[i] == BACKSLASH && i + 1 < |content| then Opens(content, i + 2, mode)
    else if content[i] == mode.Delimiter() then Opens(content, i + 1, Normal)
    else Opens(content, i + 1, mode)
  }

  lemma {:induction false} HasCommentThen(content: seq<byte>, i: nat, mode: Mode, t: Lexeme)
    requires i < |content| && t == NextLexeme(content, i, mode)
    ensures var q, rest := Lex(content, i, mode), Lex(content, i + t.size, t.next);
            HasComment(q, 0, |q|) <==> t.kind == Comment || HasComment(rest, 0, |rest|)
  {
    hide NextLexeme;
    var q, rest, head := Lex(content, i, mode), Lex(content, i + t.size, t.next), Cells(content, i, t.size, t.kind);
    LexUnfolds(content, i, mode, t);
    if HasComment(rest, 0, |rest|) {
      var k :| 0 <= k < |rest| && IsComment(rest[k]);
      assert q[t.size + k] == rest[k];
    }
    if t.kind == Comment {
      assert q[0] == head[0];
    }
  }

  lemma {:induction false} OpensIffComment(content: seq<byte>, i: nat, mode: Mode)
    requires i <= |content| && (mode.Normal? || mode.Quoting())
    ensures var q := Lex(content, i, mode); HasComment(q, 0, |q|) <==> Opens(content, i, mode)
    decreases |content| - i
  {
    hide Lex, HasComment;
    if i == |content| {
      NoCells(content, mode);
    } else {
      var t := NextLexeme(content, i, mode);
      HasCommentThen(content, i, mode, t);
      if t.kind != Comment {
        OpensIffComment(content, i + t.size, t.next);
      }
    }
  }

  lemma {:induction false} NoCells(content: seq<byte>, mode: Mode)
    ensures Lex(content, |content|, mode) == [] && !HasComment([], 0, 0)
  {
  }

  /** A text right after code and comments, if it is quoted, begins with its quote. */
  lemma {:induction false} NextTextBegins(content: seq<byte>, q: seq<Cell>, i: nat, mode: Mode)
    requires Classified(content, q, i, mode) && SameValues(content, q) && !mode.Quoting()
    ensures var b := NextText(q, i);
            b < |q| && q[b].kind == Quoted ==> q[b].value in {SINGLE_QUOTE, DOUBLE_QUOTE, BACKTICK}
    decreases |content| - i
  {
    hide Lex;
    if i < |content| {
      var t := NextLexeme(content, i, mode);
      LexAdvances(content, q, i, mode, t);
      if t.kind == Comment {
        NextTextBegins(content, q, i + t.size, t.next);
        assert NextText(q, i) == NextText(q, i + t.size);
      }
    }
  }

  /** Text that stays and is no line break is followed by text that stays. */
  lemma {:induction false} NextTextStays(q: seq<Cell>, a: nat)
    requires a < |q| && !Dropped(q, a) && !IsBreak(q[a])
    ensures var b := NextText(q, a + 1);
      && (b < |q| ==> !Dropped(q, b))
      && |Retained(q, b)| == |Retained(q, a)| + 1
  {
    var b := NextText(q, a + 1);
    OnlyCommentsBetween(q, a + 1, b);
    if b < |q| {
      LineBeginUnbroken(q, a, b);
      OnOneLine(q, a, b);
    }
  }

  /** On one line, text is kept with the text before it. */
  lemma {:induction false} OnOneLine(q: seq<Cell>, a: nat, b: nat)
    requires a < b < |q| && LineBegin(q, a) == LineBegin(q, b) && !IsComment(q[b]) && !Dropped(q, a)
    ensures !Dropped(q, b)
  {
    hide LineBegin;
  }

  lemma {:induction false} OnlyCommentsBetween(q: seq<Cell>, a: nat, b: nat)
    requires a <= b <= |q| && forall k :: a <= k < b ==> IsComment(q[k])
    ensures Retained(q, b) == Retained(q, a)
  {
    hide OnCommentLine, IndentsComment;
    if a < b {
      OnlyCommentsBetween(q, a, b - 1);
    }
  }

  lemma {:induction false} LineBeginUnbroken(q: seq<Cell>, a: nat, b: nat)
    requires a <= b < |q| && forall k :: a <= k < b ==> !IsBreak(q[k])
    ensures LineBegin(q, b) == LineBegin(q, a)
  {
    if a < b {
      LineBeginUnbroken(q, a, b - 1);
    }
  }

  /** Where a retained byte is in the output. */
  lemma {:induction false} RetainedAt(q: seq<Cell>, k: nat)
    requires k < |q| && !Dropped(q, k)
    ensures var r := Bytes(Retained(q, |q|)); |Retained(q, k)| < |r| && r[|Retained(q, k)|] == q[k].value
    ensures |Retained(q, k + 1)| == |Retained(q, k)| + 1
  {
    hide Dropped;
    RetainedPrefix(q, k + 1, |q|);
    assert Retained(q, k + 1) == Retained(q, k) + [q[k]];
  }

  /** What opens a comment in code, on the bytes. */
  predicate OpensAt(content: seq<byte>, i: nat)
    requires i < |content|
  {
    || content[i] == HASH || PairAt(content, i, SLASH, STAR)
    || (PairAt(content, i, DASH, DASH) && (i + 2 == |content| || IsSqlWhitespace(content[i + 2])))
  }

  lemma {:induction false} CodeLexeme(content: seq<byte>, i: nat, mode: Mode)
    requires i < |content|
    ensures NextLexeme(content, i, Normal).kind == Comment <==> OpensAt(content, i)
    ensures content[i] !in {SINGLE_QUOTE, DOUBLE_QUOTE, BACKTICK} && !OpensAt(content, i) ==>
              NextLexeme(content, i, Normal) == Lexeme(1, Code, Normal)
    ensures NextLexeme(content, i, mode).kind == Code ==>
              && NextLexeme(content, i, mode) == Lexeme(1, Code, Normal)
              && content[i] !in {SINGLE_QUOTE, DOUBLE_QUOTE, BACKTICK, HASH}
  {
  }

  /** A code byte that stays opens a comment in the output exactly if it is a joint. */
  lemma {:induction false} JointOpens(content: seq<byte>, q: seq<Cell>, i: nat, mode: Mode)
    requires Classified(content, q, i, mode) && SameValues(content, q) && i < |q|
    requires q[i].kind == Code && !Dropped(q, i)
    ensures var r, p := Bytes(Retained(q, |q|)), |Retained(q, i)|;
      && p < |r| && (NextLexeme(r, p, Normal).kind == Comment <==> Joint(q, i))
      && (!Joint(q, i) ==> NextLexeme(r, p, Normal) == Lexeme(1, Code, Normal))
  {
    hide Dropped, Retained, Lex, NextLexeme;
    var r, p := Bytes(Retained(q, |q|)), |Retained(q, i)|;
    RetainedAt(q, i);
    LexAdvances(content, q, i, mode, NextLexeme(content, i, mode));
    CodeLexeme(content, i, mode);
    CodeLexeme(r, p, Normal);
    if !IsBreak(q[i]) {
      var b := NextText(q, i + 1);
      NextTextStays(q, i);
      NextTextBegins(content, q, i + 1, Normal);
      if b < |q| {
        RetainedAt(q, b);
        if q[b].value == DASH {
          var c := NextText(q, b + 1);
          NextTextStays(q, b);
          if c < |q| {
            RetainedAt(q, c);
          }
        }
      }
    }
  }

  lemma {:induction false} ReopensStep(q: seq<Cell>, i: nat)
    requires i < |q|
    ensures ReopensFrom(q, i) <==> Joint(q, i) || ReopensFrom(q, i + 1)
    ensures q[i].kind != Code || IsBlank(q[i]) || IsBreak(q[i]) ==> !Joint(q, i)
  {
    hide NextText;
  }

  function Outer(mode: Mode): Mode { if mode.Quoting() then mode else Normal }

  /** What `OutputReadsAlike` says of one place. */
  ghost predicate ReadAlike(q: seq<Cell>, i: nat, mode: Mode) {
    && i <= |q| && |Retained(q, i)| <= |Retained(q, |q|)|
    && (Opens(Bytes(Retained(q, |q|)), |Retained(q, i)|, Outer(mode)) <==> ReopensFrom(q, i))
  }

  lemma {:induction false} EndReadsAlike(q: seq<Cell>, mode: Mode)
    ensures ReadAlike(q, |q|, mode)
  {
    hide Retained;
  }

  lemma {:induction false} CommentReadsAlike(content: seq<byte>, q: seq<Cell>, i: nat, mode: Mode, t: Lexeme)
    requires i < |content| == |q| && t == NextLexeme(content, i, mode) && t.kind == Comment
    requires ReadAlike(q, i + t.size, t.next) && q[i].kind == q[i + t.size - 1].kind == Comment
    ensures ReadAlike(q, i, mode)
  {
    hide Retained, Opens, Joint, Dropped;
    OnlyCommentsBetween(q, i, i + t.size);
    ReopensStep(q, i);
    if t.size == 2 {
      ReopensStep(q, i + 1);
    }
  }

  lemma {:induction false} QuotedReadsAlike(content: seq<byte>, q: seq<Cell>, i: nat, mode: Mode, t: Lexeme)
    requires q == Lex(content, 0, Normal) && SameValues(content, q) && i < |content|
    requires t == NextLexeme(content, i, mode) && t.kind == Quoted
    requires ReadAlike(q, i + t.size, t.next) && q[i].kind == q[i + t.size - 1].kind == Quoted
    ensures ReadAlike(q, i, mode)
  {
    hide Retained, Joint, Dropped, Lex;
    OnlyBlanksGo(content, i);
    RetainedAt(q, i);
    ReopensStep(q, i);
    RetainedPrefix(q, i + 1, |q|);
    if t.size == 2 {
      OnlyBlanksGo(content, i + 1);
      RetainedAt(q, i + 1);
      ReopensStep(q, i + 1);
      var r, p := Bytes(Retained(q, |q|)), |Retained(q, i)|;
      if r[p] == mode.Delimiter() {
        assert Opens(r, p + 1, Normal) == Opens(r, p + 2, mode);
      }
    }
  }

  lemma {:induction false} CodeReadsAlike(content: seq<byte>, q: seq<Cell>, i: nat, mode: Mode, t: Lexeme)
    requires q == Lex(content, 0, Normal) && SameValues(content, q) && i < |content| && Classified(content, q, i, mode)
    requires t == NextLexeme(content, i, mode) && t.kind == Code == q[i].kind
    requires ReadAlike(q, i + t.size, t.next)
    ensures ReadAlike(q, i, mode)
  {
    hide Joint, Dropped, Lex;
    ReopensStep(q, i);
    OnlyBlanksGo(content, i);
    if !Dropped(q, i) {
      RetainedAt(q, i);
      JointOpens(content, q, i, mode);
    }
  }

  /** Reading the output beside the input: from corresponding places, the output opens a comment exactly if a joint is
      still to come. */
  lemma {:induction false} OutputReadsAlike(content: seq<byte>, q: seq<Cell>, i: nat, mode: Mode)
    requires q == Lex(content, 0, Normal) && SameValues(content, q) && Classified(content, q, i, mode)
    ensures ReadAlike(q, i, mode)
    decreases |content| - i
  {
    hide Lex, ReadAlike, NextLexeme;
    if i == |content| {
      EndReadsAlike(q, mode);
    } else {
      var t := NextLexeme(content, i, mode);
      LexAdvances(content, q, i, mode, t);
      OutputReadsAlike(content, q, i + t.size, t.next);
      match t.kind
      case Comment => CommentReadsAlike(content, q, i, mode, t);
      case Quoted => QuotedReadsAlike(content, q, i, mode, t);
      case Code => CodeReadsAlike(content, q, i, mode, t);
    }
  }

  /** Stripping a script twice takes more than stripping it once exactly if comments stand between two code bytes of it
      that open a comment where they meet. */
  lemma {:induction false} IdempotentIff(content: seq<byte>)
    ensures var q := Lex(content, 0, Normal);
            Stripped(Stripped(content)) == Stripped(content) <==> !exists a :: 0 <= a < |q| && Joint(q, a)
  {
    hide Lex, Opens, Joint, HasComment, Dropped;
    var q := Lex(content, 0, Normal);
    LexCoversInput(content, 0, Normal);
    assert q[0..] == q;
    assert |Retained(q, 0)| == 0;
    OutputReadsAlike(content, q, 0, Normal);
    hide Retained, Stripped;
    UnchangedIffNoComment(Stripped(content));
    OpensIffComment(Stripped(content), 0, Normal);
    StrippedIs(content);
  }

  lemma {:induction false} StrippedIs(content: seq<byte>)
    ensures var q := Lex(content, 0, Normal); Stripped(content) == Bytes(Retained(q, |q|))
  {
  }

  /** So it does for `--#` before a line feed, which becomes `--` before a line feed, a comment line. */
  lemma {:induction false} StrippingIsNotIdempotent()
    ensures Stripped([DASH, DASH, HASH, LF]) == [DASH, DASH, LF]
    ensures Stripped([DASH, DASH, LF]) == []
  {
    hide Run, Stripped;
    var c := [DASH, DASH, HASH, LF];
    assert [] + [DASH] == [DASH] && [DASH] + [DASH] == [DASH, DASH] && [DASH, DASH] + [LF] == [DASH, DASH, LF];
    RunIsStripped(c);
    RunTurn(c, START);
    RunTurn(c, Pass(1, Normal, false, false, false, [DASH], 0));
    RunTurn(c, Pass(2, Normal, false, false, false, [DASH, DASH], 0));
    RunTurn(c, Pass(3, LineComment, false, false, false, [DASH, DASH], 0));
    RunEnds(c, Pass(4, Normal, true, false, false, [DASH, DASH, LF], 3));
    var d := [DASH, DASH, LF];
    RunIsStripped(d);
    RunTurn(d, START);
    RunTurn(d, Pass(2, LineComment, true, true, false, [], 0));
    RunEnds(d, Pass(3, Normal, true, false, false, [], 0));
  }
}
