/** The three character scanners of tools/development_residue_hygiene.py.

    Each scanner walks a text with an index and a mode and writes into a buffer that is
    as long as the text.  The specification of a scanner is a classification of every
    position (`Kinds`, `HashKinds`); the methods at the end of each section are the
    in-place loops and are proved to compute exactly what the classification says. */
module CommentScanners {
  import opened Chars

  // ---------------------------------------------------------------------------------
  // C-style scanners
  // ---------------------------------------------------------------------------------

  datatype Mode = Code | Line | Block(depth: nat) | Str(quote: char)

  datatype Kind = CodeText | CommentText | LiteralText

  /** One turn of a scanner loop: `width` positions of kind `kind`, then mode `next`. */
  datatype Move = Move(kind: Kind, width: nat, next: Mode)

  /** The callers pass subsets of these three quote characters. */
  predicate QuoteSet(quotes: set<char>) {
    quotes <= {'\'', '"', '`'}
  }

  predicate Pair(text: string, i: nat, first: char, second: char) {
    i + 1 < |text| && text[i] == first && text[i + 1] == second
  }

  /** The turn taken at position `i`.  Only the comment scanner counts nested block
      comments (`nesting`); the masking scanner leaves a block at the first closer. */
  function Turn(nesting: bool, quotes: set<char>, text: string, i: nat, mode: Mode): (move: Move)
    requires i < |text|
    ensures 1 <= move.width <= 2 && i + move.width <= |text|
  {
    match mode
    case Code =>
      if Pair(text, i, '/', '/') then Move(CommentText, 2, Line)
      else if Pair(text, i, '/', '*') then Move(CommentText, 2, Block(1))
      else if text[i] in quotes then Move(LiteralText, 1, Str(text[i]))
      else Move(CodeText, 1, Code)
    case Line =>
      Move(CommentText, 1, if text[i] == '\n' then Code else Line)
    case Block(depth) =>
      if nesting && Pair(text, i, '/', '*') then Move(CommentText, 2, Block(depth + 1))
      else if Pair(text, i, '*', '/') then
        Move(CommentText, 2, if nesting && depth > 1 then Block(depth - 1) else Code)
      else Move(CommentText, 1, mode)
    case Str(quote) =>
      if text[i] == '\\' then Move(LiteralText, if i + 1 < |text| then 2 else 1, mode)
      else Move(LiteralText, 1, if text[i] == quote then Code else mode)
  }

  function Repeat(kind: Kind, width: nat): (kinds: seq<Kind>)
    requires 1 <= width <= 2
    ensures |kinds| == width
  {
    if width == 2 then [kind, kind] else [kind]
  }

  /** The kind of every position from `i` on, when the scanner is at `i` in `mode`. */
  function Kinds(nesting: bool, quotes: set<char>, text: string, i: nat, mode: Mode): (kinds: seq<Kind>)
    requires i <= |text|
    ensures |kinds| == |text| - i
    decreases |text| - i
  {
    if i == |text| then [] else
      var move := Turn(nesting, quotes, text, i, mode);
      Repeat(move.kind, move.width) + Kinds(nesting, quotes, text, i + move.width, move.next)
  }

  /** A kept character, or the newline or blank that stands for a dropped one. */
  function Shown(keep: bool, c: char): char {
    if keep || c == '\n' then c else ' '
  }

  /** Keep the positions of one kind and the newlines, blank everything else. */
  function Keep(kind: Kind, text: string, kinds: seq<Kind>): (kept: string)
    requires |kinds| == |text|
    ensures |kept| == |text|
  {
    seq(|text|, i requires 0 <= i < |text| => Shown(kinds[i] == kind, text[i]))
  }

  function MaskedText(text: string, quotes: set<char>): (masked: string)
  {
    Keep(CodeText, text, Kinds(false, quotes, text, 0, Code))
  }

  function CommentsOf(text: string, quotes: set<char>): (comments: string)
  {
    Keep(CommentText, text, Kinds(true, quotes, text, 0, Code))
  }

  function BlankText(text: string): (blank: string)
  {
    seq(|text|, i requires 0 <= i < |text| => if text[i] == '\n' then '\n' else ' ')
  }

  /** `kinds` classifies the text from `i` on as the scanner in `mode` would. */
  ghost predicate Follows(kinds: seq<Kind>, nesting: bool, quotes: set<char>, text: string, i: nat, mode: Mode) {
    i <= |text| == |kinds| && kinds[i..] == Kinds(nesting, quotes, text, i, mode)
  }

  /** What one turn contributes to the classification of the whole text. */
  lemma KindsTurn(kinds: seq<Kind>, nesting: bool, quotes: set<char>, text: string, i: nat, mode: Mode)
    requires i < |text| && Follows(kinds, nesting, quotes, text, i, mode)
    ensures var move := Turn(nesting, quotes, text, i, mode);
      && kinds[i] == move.kind
      && (move.width == 2 ==> kinds[i + 1] == move.kind)
      && Follows(kinds, nesting, quotes, text, i + move.width, move.next)
  {
  }

  /** One iteration of the masking loop: write at most two positions, advance. */
  method MaskTurn(text: string, quotes: set<char>, masked: array<char>, i: nat, mode: Mode)
    returns (next: nat, after: Mode)
    requires QuoteSet(quotes) && (mode.Str? ==> mode.quote in quotes)
    requires i < |text| == masked.Length
    requires masked[i] == text[i] && (i + 1 < |text| ==> masked[i + 1] == text[i + 1])
    modifies masked
    ensures var move := Turn(false, quotes, text, i, mode);
      && next == i + move.width && after == move.next
      && (forall j | 0 <= j < |text| && !(i <= j < next) :: masked[j] == old(masked[j]))
      && masked[i] == Shown(move.kind == CodeText, text[i])
      && (move.width == 2 ==> masked[i + 1] == Shown(move.kind == CodeText, text[i + 1]))
  {
    next, after := i + 1, mode;
    match mode
    case Code =>
      if Pair(text, i, '/', '/') {
        masked[i], masked[i + 1] := ' ', ' ';
        next, after := i + 2, Line;
      } else if Pair(text, i, '/', '*') {
        masked[i], masked[i + 1] := ' ', ' ';
        next, after := i + 2, Block(1);
      } else if text[i] in quotes {
        masked[i] := ' ';
        after := Str(text[i]);
      }
    case Line =>
      if text[i] == '\n' { after := Code; } else { masked[i] := ' '; }
    case Block(_) =>
      if Pair(text, i, '*', '/') {
        masked[i], masked[i + 1] := ' ', ' ';
        next, after := i + 2, Code;
      } else if text[i] != '\n' {
        masked[i] := ' ';
      }
    case Str(quote) =>
      if text[i] == '\\' {
        masked[i] := ' ';
        if i + 1 < |text| {
          if text[i + 1] != '\n' { masked[i + 1] := ' '; }
          next := i + 2;
        }
      } else if text[i] == quote {
        masked[i] := ' ';
        after := Code;
      } else if text[i] != '\n' {
        masked[i] := ' ';
      }
  }

  method MaskCStyleLiterals(text: string, quotes: set<char>) returns (result: string)
    requires QuoteSet(quotes)
    ensures result == MaskedText(text, quotes)
  {
    var masked := new char[|text|](i requires 0 <= i < |text| => text[i]);
    ghost var kinds := Kinds(false, quotes, text, 0, Code);
    var index, mode := 0, Code;
    while index < |text|
      invariant mode.Str? ==> mode.quote in quotes
      invariant Follows(kinds, false, quotes, text, index, mode)
      invariant forall j | 0 <= j < index :: masked[j] == Shown(kinds[j] == CodeText, text[j])
      invariant forall j | index <= j < |text| :: masked[j] == text[j]
    {
      hide Turn, Kinds;
      KindsTurn(kinds, false, quotes, text, index, mode);
      index, mode := MaskTurn(text, quotes, masked, index, mode);
    }
    result := masked[..];
  }

  /** One iteration of the comment loop.  An escape at the very end of the text steps
      one position past it, as the source does. */
  method CommentTurn(text: string, quotes: set<char>, comments: array<char>, i: nat, mode: Mode)
    returns (next: nat, after: Mode)
    requires i < |text| == comments.Length
    requires comments[i] == Shown(false, text[i])
    requires i + 1 < |text| ==> comments[i + 1] == Shown(false, text[i + 1])
    requires mode.Block? ==> mode.depth >= 1
    modifies comments
    ensures var move := Turn(true, quotes, text, i, mode);
      && next <= |text| + 1 && Clamp(next, |text|) == i + move.width && after == move.next
      && (after.Block? ==> after.depth >= 1)
      && (forall j | 0 <= j < |text| && !(i <= j < next) :: comments[j] == old(comments[j]))
      && comments[i] == Shown(move.kind == CommentText, text[i])
      && (move.width == 2 ==> comments[i + 1] == Shown(move.kind == CommentText, text[i + 1]))
  {
    next, after := i + 1, mode;
    match mode
    case Code =>
      if Pair(text, i, '/', '/') {
        comments[i], comments[i + 1] := '/', '/';
        next, after := i + 2, Line;
      } else if Pair(text, i, '/', '*') {
        comments[i], comments[i + 1] := '/', '*';
        next, after := i + 2, Block(1);
      } else if text[i] in quotes {
        after := Str(text[i]);
      }
    case Line =>
      if text[i] == '\n' { after := Code; } else { comments[i] := text[i]; }
    case Block(depth) =>
      if Pair(text, i, '/', '*') {
        comments[i], comments[i + 1] := '/', '*';
        next, after := i + 2, Block(depth + 1);
      } else if Pair(text, i, '*', '/') {
        comments[i], comments[i + 1] := '*', '/';
        next := i + 2;
        after := if depth - 1 == 0 then Code else Block(depth - 1);
      } else if text[i] != '\n' {
        comments[i] := text[i];
      }
    case Str(quote) =>
      if text[i] == '\\' {
        next := i + 2;
      } else if text[i] == quote {
        after := Code;
      }
  }

  function Clamp(i: nat, limit: nat): nat {
    if i < limit then i else limit
  }

  method CStyleCommentText(text: string, quotes: set<char>) returns (result: string)
    ensures result == CommentsOf(text, quotes)
  {
    hide Turn, Kinds;
    var comments := new char[|text|](i requires 0 <= i < |text| => if text[i] == '\n' then '\n' else ' ');
    ghost var kinds := Kinds(true, quotes, text, 0, Code);
    var index, mode := 0, Code;
    while index < |text|
      invariant index <= |text| + 1 && (mode.Block? ==> mode.depth >= 1)
      invariant Follows(kinds, true, quotes, text, Clamp(index, |text|), mode)
      invariant forall j | 0 <= j < Clamp(index, |text|) :: comments[j] == Shown(kinds[j] == CommentText, text[j])
      invariant forall j | index <= j < |text| :: comments[j] == Shown(false, text[j])
    {
      KindsTurn(kinds, true, quotes, text, index, mode);
      index, mode := CommentTurn(text, quotes, comments, index, mode);
    }
    result := comments[..];
  }

  // ----- offsets and line numbers -----------------------------------------------------

  function Newlines(text: string): (count: nat) {
    if text == [] then 0 else Newlines(text[1..]) + if text[0] == '\n' then 1 else 0
  }

  /** `scanned` has a newline exactly where `text` has one, and the same length. */
  predicate SameLines(text: string, scanned: string) {
    |scanned| == |text| && forall i | 0 <= i < |text| :: scanned[i] == '\n' <==> text[i] == '\n'
  }

  /** The line number reported for a match at `start` (regex_findings). */
  function LineNumber(text: string, start: nat): nat
    requires start <= |text|
  {
    Newlines(text[..start]) + 1
  }

  lemma {:induction false} NewlinesAgree(a: string, b: string)
    requires SameLines(a, b)
    ensures Newlines(a) == Newlines(b)
  {
    if a != [] {
      NewlinesAgree(a[1..], b[1..]);
    }
  }

  /** Lines are counted from 1, and each newline begins another. */
  lemma LinesCounted(text: string, i: nat)
    requires i < |text|
    ensures LineNumber(text, 0) == 1
    ensures text[i] == '\n' ==> LineNumber(text, i + 1) == LineNumber(text, i) + 1
    ensures text[i] != '\n' ==> LineNumber(text, i + 1) == LineNumber(text, i)
  {
    assert text[..i + 1] == text[..i] + [text[i]];
    NewlinesAfter(text[..i], text[i]);
  }

  lemma {:induction false} NewlinesAfter(text: string, c: char)
    ensures Newlines(text + [c]) == Newlines(text) + if c == '\n' then 1 else 0
  {
    if text != [] {
      assert (text + [c])[1..] == text[1..] + [c];
      NewlinesAfter(text[1..], c);
    }
  }

  /** Line numbers found in scanned text are line numbers of the source text. */
  lemma LineNumbersAgree(text: string, quotes: set<char>, start: nat)
    requires start <= |text|
    ensures SameLines(text, MaskedText(text, quotes)) && SameLines(text, CommentsOf(text, quotes))
    ensures SameLines(text, HashComments(text))
    ensures LineNumber(MaskedText(text, quotes), start) == LineNumber(text, start)
    ensures LineNumber(CommentsOf(text, quotes), start) == LineNumber(text, start)
    ensures LineNumber(HashComments(text), start) == LineNumber(text, start)
  {
    NewlinesAgree(text[..start], MaskedText(text, quotes)[..start]);
    NewlinesAgree(text[..start], CommentsOf(text, quotes)[..start]);
    NewlinesAgree(text[..start], HashComments(text)[..start]);
  }

  // ----- rescanning -------------------------------------------------------------------

  /** The mode of the second scan while the first is in `mode`: literals are gone. */
  function Shadow(mode: Mode): Mode {
    if mode.Str? then Code else mode
  }

  /** A comment turn is taken again on the kept text; any other position is plain code. */
  lemma TurnAgain(nesting: bool, quotes: set<char>, text: string, kept: string, i: nat, mode: Mode)
    requires QuoteSet(quotes) && i < |text| == |kept|
    requires var move := Turn(nesting, quotes, text, i, mode);
      && kept[i] == Shown(move.kind == CommentText, text[i])
      && (move.kind == CommentText && (move.width == 2 || (move.next.Block? && i + 1 < |text|)) ==>
        kept[i + 1] == text[i + 1])
    ensures var move := Turn(nesting, quotes, text, i, mode);
      && Turn(nesting, quotes, kept, i, Shadow(mode))
        == (if move.kind == CommentText then move else Move(CodeText, 1, Code))
      && (move.kind == CodeText ==> move.width == 1)
      && Shadow(move.next) == if move.kind == CommentText then move.next else Code
  {
  }

  lemma BlankTurn(nesting: bool, quotes: set<char>, text: string, i: nat)
    requires QuoteSet(quotes) && i < |text| && text[i] in {' ', '\n'}
    ensures Turn(nesting, quotes, text, i, Code) == Move(CodeText, 1, Code)
  {
  }

  /** Inside a block comment the following position is a comment position too. */
  lemma BlockGoesOn(kinds: seq<Kind>, nesting: bool, quotes: set<char>, text: string, i: nat, mode: Mode)
    requires i < |text| && Follows(kinds, nesting, quotes, text, i, mode) && mode.Block?
    ensures kinds[i] == CommentText
  {
  }

  /** Stuttering simulation: a scan of the extracted comments finds every comment again,
      taking one or two plain-code turns where the first scan was inside a literal. */
  lemma {:induction false} Rescan(kinds: seq<Kind>, again: seq<Kind>, nesting: bool, quotes: set<char>,
                                  text: string, kept: string, i: nat, mode: Mode)
    requires QuoteSet(quotes)
    requires Follows(kinds, nesting, quotes, text, i, mode)
    requires Follows(again, nesting, quotes, kept, i, Shadow(mode))
    requires |kept| == |text| && forall j | 0 <= j < |text| :: kept[j] == Shown(kinds[j] == CommentText, text[j])
    ensures forall j | i <= j < |text| && kinds[j] == CommentText :: again[j] == CommentText
    decreases |text| - i
  {
    hide Turn, Kinds;
    if i < |text| {
      var move := Turn(nesting, quotes, text, i, mode);
      KindsTurn(kinds, nesting, quotes, text, i, mode);
      if move.next.Block? && i + move.width < |text| {
        BlockGoesOn(kinds, nesting, quotes, text, i + move.width, move.next);
      }
      TurnAgain(nesting, quotes, text, kept, i, mode);
      KindsTurn(again, nesting, quotes, kept, i, Shadow(mode));
      if move.width == 2 && move.kind == LiteralText {
        BlankTurn(nesting, quotes, kept, i + 1);
        KindsTurn(again, nesting, quotes, kept, i + 1, Code);
      }
      Rescan(kinds, again, nesting, quotes, text, kept, i + move.width, move.next);
    }
  }

  lemma CommentsIdempotent(text: string, quotes: set<char>)
    requires QuoteSet(quotes)
    ensures CommentsOf(CommentsOf(text, quotes), quotes) == CommentsOf(text, quotes)
  {
    var kept := CommentsOf(text, quotes);
    var kinds, again := Kinds(true, quotes, text, 0, Code), Kinds(true, quotes, kept, 0, Code);
    Rescan(kinds, again, true, quotes, text, kept, 0, Code);
  }

  /** No quote, and no comment opener: nothing for a C-style scanner to react to. */
  predicate Inert(text: string, quotes: set<char>) {
    && (forall i | 0 <= i < |text| :: text[i] !in quotes)
    && (forall i | 0 <= i < |text| :: !Pair(text, i, '/', '/') && !Pair(text, i, '/', '*'))
  }

  lemma {:induction false} InertIsCode(nesting: bool, quotes: set<char>, text: string, i: nat)
    requires Inert(text, quotes) && i <= |text|
    ensures forall j | 0 <= j < |text| - i :: Kinds(nesting, quotes, text, i, Code)[j] == CodeText
    decreases |text| - i
  {
    if i < |text| {
      InertIsCode(nesting, quotes, text, i + 1);
    }
  }

  /** A code position is reached in code mode with nothing to react to. */
  lemma {:induction false} CodeIsInert(kinds: seq<Kind>, nesting: bool, quotes: set<char>,
                                       text: string, i: nat, mode: Mode)
    requires Follows(kinds, nesting, quotes, text, i, mode)
    ensures forall j | i <= j < |text| && kinds[j] == CodeText ::
      text[j] !in quotes && !Pair(text, j, '/', '/') && !Pair(text, j, '/', '*')
    decreases |text| - i
  {
    if i < |text| {
      var move := Turn(nesting, quotes, text, i, mode);
      KindsTurn(kinds, nesting, quotes, text, i, mode);
      CodeIsInert(kinds, nesting, quotes, text, i + move.width, move.next);
    }
  }

  lemma MaskedIsInert(text: string, quotes: set<char>)
    requires QuoteSet(quotes)
    ensures Inert(MaskedText(text, quotes), quotes)
  {
    CodeIsInert(Kinds(false, quotes, text, 0, Code), false, quotes, text, 0, Code);
  }

  /** Masking again changes nothing, and masked text has no comment left to extract. */
  lemma MaskIdempotent(text: string, quotes: set<char>)
    requires QuoteSet(quotes)
    ensures MaskedText(MaskedText(text, quotes), quotes) == MaskedText(text, quotes)
    ensures CommentsOf(MaskedText(text, quotes), quotes) == BlankText(text)
  {
    var masked := MaskedText(text, quotes);
    MaskedIsInert(text, quotes);
    InertIsCode(false, quotes, masked, 0);
    InertIsCode(true, quotes, masked, 0);
  }

  // ----- lockstep of the two scanners ---------------------------------------------------

  /** The (position, mode) pairs a scanner goes through, ending at the end of the text. */
  function Trace(nesting: bool, quotes: set<char>, text: string, i: nat, mode: Mode): (trace: seq<(nat, Mode)>)
    requires i <= |text|
    ensures |trace| >= 1 && trace[0] == (i, mode)
    decreases |text| - i
  {
    [(i, mode)] +
      if i == |text| then [] else
        var move := Turn(nesting, quotes, text, i, mode);
        Trace(nesting, quotes, text, i + move.width, move.next)
  }

  /** The comment scanner never counts a second open block. */
  predicate ShallowTrace(trace: seq<(nat, Mode)>) {
    forall k | 0 <= k < |trace| :: trace[k].1.Block? ==> trace[k].1.depth <= 1
  }

  predicate ShallowNesting(text: string, quotes: set<char>) {
    ShallowTrace(Trace(true, quotes, text, 0, Code))
  }

  lemma {:induction false} TraceStep(nesting: bool, quotes: set<char>, text: string, i: nat, mode: Mode)
    requires i < |text|
    ensures var move := Turn(nesting, quotes, text, i, mode);
      var trace, rest := Trace(nesting, quotes, text, i, mode), Trace(nesting, quotes, text, i + move.width, move.next);
      trace == [(i, mode)] + rest && trace[1] == (i + move.width, move.next)
  {
  }

  lemma TraceStarts(nesting: bool, quotes: set<char>, text: string, i: nat, mode: Mode)
    requires i <= |text|
    ensures i == |text| ==> Trace(nesting, quotes, text, i, mode) == [(i, mode)]
  {
  }

  /** The scanners take the same turn, or the counting one is about to reach depth 2. */
  lemma TurnsAgree(quotes: set<char>, text: string, i: nat, mode: Mode)
    requires i < |text| && (mode.Block? ==> mode.depth == 1)
    ensures var counting, plain := Turn(true, quotes, text, i, mode), Turn(false, quotes, text, i, mode);
      if mode.Block? && Pair(text, i, '/', '*') then counting.next == Block(2) && plain.next == mode
      else counting == plain && (plain.next.Block? ==> plain.next.depth == 1)
  {
  }

  lemma {:induction false} ShallowMovesTogether(quotes: set<char>, text: string, i: nat, mode: Mode)
    requires i <= |text| && (mode.Block? ==> mode.depth == 1)
    requires ShallowTrace(Trace(true, quotes, text, i, mode))
    ensures Trace(true, quotes, text, i, mode) == Trace(false, quotes, text, i, mode)
    ensures Kinds(true, quotes, text, i, mode) == Kinds(false, quotes, text, i, mode)
    decreases |text| - i
  {
    hide Turn, Trace;
    TraceStarts(true, quotes, text, i, mode);
    TraceStarts(false, quotes, text, i, mode);
    if i < |text| {
      var trace, move := Trace(true, quotes, text, i, mode), Turn(true, quotes, text, i, mode);
      TraceStep(true, quotes, text, i, mode);
      TraceStep(false, quotes, text, i, mode);
      TurnsAgree(quotes, text, i, mode);
      assert trace[0].1 == mode && trace[1].1 == move.next;
      ShallowTail(trace, Trace(true, quotes, text, i + move.width, move.next));
      ShallowMovesTogether(quotes, text, i + move.width, move.next);
    }
  }

  lemma {:induction false} DeepMovesApart(quotes: set<char>, text: string, i: nat, mode: Mode)
    requires i <= |text| && (mode.Block? ==> mode.depth == 1)
    requires !ShallowTrace(Trace(true, quotes, text, i, mode))
    ensures Trace(true, quotes, text, i, mode) != Trace(false, quotes, text, i, mode)
    decreases |text| - i
  {
    hide Turn, Trace;
    TraceStarts(true, quotes, text, i, mode);
    if i < |text| {
      var trace, plain := Trace(true, quotes, text, i, mode), Trace(false, quotes, text, i, mode);
      var move, move' := Turn(true, quotes, text, i, mode), Turn(false, quotes, text, i, mode);
      TraceStep(true, quotes, text, i, mode);
      TraceStep(false, quotes, text, i, mode);
      TurnsAgree(quotes, text, i, mode);
      if move == move' {
        var rest := Trace(true, quotes, text, i + move.width, move.next);
        var rest' := Trace(false, quotes, text, i + move.width, move.next);
        ShallowTail(trace, rest);
        DeepMovesApart(quotes, text, i + move.width, move.next);
        assert trace[1..] == rest && plain[1..] == rest';
      } else {
        assert trace[1].1 != plain[1].1;
      }
    }
  }

  lemma ShallowTail(trace: seq<(nat, Mode)>, rest: seq<(nat, Mode)>)
    requires |trace| >= 1 && trace == [trace[0]] + rest
    requires trace[0].1.Block? ==> trace[0].1.depth <= 1
    ensures ShallowTrace(trace) <==> ShallowTrace(rest)
  {
    assert rest == trace[1..];
    assert forall k | 0 <= k < |rest| :: rest[k] == trace[k + 1];
    assert forall k | 1 <= k < |trace| :: trace[k] == rest[k - 1];
  }

  /** The two scanners are in the same mode at every step if and only if no block comment
      is opened inside a block comment. */
  lemma Lockstep(text: string, quotes: set<char>)
    ensures Trace(true, quotes, text, 0, Code) == Trace(false, quotes, text, 0, Code)
      <==> ShallowNesting(text, quotes)
  {
    if ShallowNesting(text, quotes) {
      ShallowMovesTogether(quotes, text, 0, Code);
    } else {
      DeepMovesApart(quotes, text, 0, Code);
    }
  }

  predicate NonBlank(c: char) {
    c != ' ' && c != '\n'
  }

  /** With shallow nesting every position has one kind: code is kept by the mask alone,
      comments by the comment scanner alone, literals by neither. */
  lemma Partition(text: string, quotes: set<char>)
    requires ShallowNesting(text, quotes)
    ensures var kinds := Kinds(true, quotes, text, 0, Code);
      forall i | 0 <= i < |text| :: var masked, comments := MaskedText(text, quotes)[i], CommentsOf(text, quotes)[i];
        && !(NonBlank(masked) && NonBlank(comments))
        && match kinds[i] {
             case CodeText => masked == text[i] && comments == Shown(false, text[i])
             case CommentText => comments == text[i] && masked == Shown(false, text[i])
             case LiteralText => masked == comments == Shown(false, text[i])
           }
  {
    ShallowMovesTogether(quotes, text, 0, Code);
  }

  /** Masking the extracted comments leaves only blanks, when nesting is shallow. */
  lemma MaskedCommentsBlank(text: string, quotes: set<char>)
    requires QuoteSet(quotes) && ShallowNesting(text, quotes)
    ensures MaskedText(CommentsOf(text, quotes), quotes) == BlankText(text)
  {
    ShallowMovesTogether(quotes, text, 0, Code);
    var kept := CommentsOf(text, quotes);
    var kinds, again := Kinds(false, quotes, text, 0, Code), Kinds(false, quotes, kept, 0, Code);
    Rescan(kinds, again, false, quotes, text, kept, 0, Code);
  }

  /** Without the condition the partition fails: in this text both scanners keep the `x`. */
  lemma NestedCommentKeptTwice()
    ensures var text, quotes := "/*/**/x", {'"'};
      && !ShallowNesting(text, quotes)
      && MaskedText(text, quotes)[6] == CommentsOf(text, quotes)[6] == 'x'
  {
    hide Kinds, Trace;
    var text, quotes := "/*/**/x", {'"'};
    var counting, plain := Kinds(true, quotes, text, 0, Code), Kinds(false, quotes, text, 0, Code);
    NestedKinds(counting, plain, quotes, text);
    var trace := Trace(true, quotes, text, 0, Code);
    TraceStep(true, quotes, text, 0, Code);
    TraceStep(true, quotes, text, 2, Block(1));
    assert trace[2] == (4, Block(2));
  }

  lemma NestedKinds(counting: seq<Kind>, plain: seq<Kind>, quotes: set<char>, text: string)
    requires text == "/*/**/x" && quotes == {'"'}
    requires Follows(counting, true, quotes, text, 0, Code) && Follows(plain, false, quotes, text, 0, Code)
    ensures counting[6] == CommentText && plain[6] == CodeText
  {
    hide Kinds;
    KindsTurn(counting, true, quotes, text, 0, Code);
    KindsTurn(counting, true, quotes, text, 2, Block(1));
    KindsTurn(counting, true, quotes, text, 4, Block(2));
    KindsTurn(counting, true, quotes, text, 6, Block(1));
    KindsTurn(plain, false, quotes, text, 0, Code);
    KindsTurn(plain, false, quotes, text, 2, Block(1));
    KindsTurn(plain, false, quotes, text, 3, Block(1));
    KindsTurn(plain, false, quotes, text, 4, Block(1));
    KindsTurn(plain, false, quotes, text, 6, Code);
  }

  // ---------------------------------------------------------------------------------
  // Shell and configuration comments
  // ---------------------------------------------------------------------------------

  datatype HashMode = Bare | Comment | Single | Double

  /** A `#` starts a comment at the start of the text, after a blank or a separator. */
  predicate StartsComment(text: string, i: nat)
    requires i < |text|
  {
    text[i] == '#' && (i == 0 || IsSpace(text[i - 1]) || text[i - 1] in ";|&()")
  }

  datatype HashMove = HashMove(comment: bool, width: nat, next: HashMode)

  function HashTurn(text: string, i: nat, mode: HashMode): (move: HashMove)
    requires i < |text|
    ensures 1 <= move.width <= 2 && i + move.width <= |text|
    ensures move.comment ==> move.width == 1
  {
    var escape := if i + 1 < |text| then 2 else 1;
    match mode
    case Comment => HashMove(true, 1, if text[i] == '\n' then Bare else Comment)
    case Single => HashMove(false, 1, if text[i] == '\'' then Bare else Single)
    case Double =>
      if text[i] == '\\' then HashMove(false, escape, Double)
      else HashMove(false, 1, if text[i] == '"' then Bare else Double)
    case Bare =>
      if text[i] == '\\' then HashMove(false, escape, Bare)
      else if text[i] == '\'' then HashMove(false, 1, Single)
      else if text[i] == '"' then HashMove(false, 1, Double)
      else if StartsComment(text, i) then HashMove(true, 1, Comment)
      else HashMove(false, 1, Bare)
  }

  /** Which positions from `i` on are comment positions. */
  function HashKinds(text: string, i: nat, mode: HashMode): (kinds: seq<bool>)
    requires i <= |text|
    ensures |kinds| == |text| - i
    decreases |text| - i
  {
    if i == |text| then [] else
      var move := HashTurn(text, i, mode);
      (if move.width == 2 then [false, false] else [move.comment]) + HashKinds(text, i + move.width, move.next)
  }

  function HashComments(text: string): (comments: string)
    ensures |comments| == |text|
  {
    var kinds := HashKinds(text, 0, Bare);
    seq(|text|, i requires 0 <= i < |text| => Shown(kinds[i], text[i]))
  }

  ghost predicate HashFollows(kinds: seq<bool>, text: string, i: nat, mode: HashMode) {
    i <= |text| == |kinds| && kinds[i..] == HashKinds(text, i, mode)
  }

  lemma HashKindsTurn(kinds: seq<bool>, text: string, i: nat, mode: HashMode)
    requires i < |text| && HashFollows(kinds, text, i, mode)
    ensures var move := HashTurn(text, i, mode);
      && kinds[i] == move.comment
      && (move.width == 2 ==> !kinds[i + 1])
      && HashFollows(kinds, text, i + move.width, move.next)
  {
  }

  method HashCommentText(text: string) returns (result: string)
    ensures result == HashComments(text)
  {
    hide HashKinds;
    var comments := new char[|text|](i requires 0 <= i < |text| => if text[i] == '\n' then '\n' else ' ');
    ghost var kinds := HashKinds(text, 0, Bare);
    var index, mode := 0, Bare;
    while index < |text|
      invariant index <= |text| + 1
      invariant HashFollows(kinds, text, Clamp(index, |text|), mode)
      invariant forall j | 0 <= j < Clamp(index, |text|) :: comments[j] == Shown(kinds[j], text[j])
      invariant forall j | index <= j < |text| :: comments[j] == Shown(false, text[j])
    {
      HashKindsTurn(kinds, text, index, mode);
      match mode {
        case Comment =>
          if text[index] == '\n' { mode := Bare; } else { comments[index] := text[index]; }
          index := index + 1;
        case Single =>
          if text[index] == '\'' { mode := Bare; }
          index := index + 1;
        case Double =>
          if text[index] == '\\' {
            index := index + 2;
          } else {
            if text[index] == '"' { mode := Bare; }
            index := index + 1;
          }
        case Bare =>
          if text[index] == '\\' {
            index := index + 2;
          } else {
            if text[index] == '\'' {
              mode := Single;
            } else if text[index] == '"' {
              mode := Double;
            } else if StartsComment(text, index) {
              comments[index] := '#';
              mode := Comment;
            }
            index := index + 1;
          }
      }
    }
    result := comments[..];
  }

  /** Second scan of the extracted comments: outside comments it stays in bare text, and the
      character before a comment is always a blank there, so the comment starts again. */
  lemma {:induction false} HashRescan(kinds: seq<bool>, again: seq<bool>, text: string,
                                      kept: string, i: nat, mode: HashMode)
    requires HashFollows(kinds, text, i, mode)
    requires HashFollows(again, kept, i, if mode == Comment then Comment else Bare)
    requires |kept| == |text| && forall j | 0 <= j < |text| :: kept[j] == Shown(kinds[j], text[j])
    requires mode == Comment || i == 0 || IsSpace(kept[i - 1])
    ensures forall j | i <= j < |text| && kinds[j] :: again[j]
    decreases |text| - i
  {
    hide HashKinds;
    if i < |text| {
      var move := HashTurn(text, i, mode);
      HashKindsTurn(kinds, text, i, mode);
      HashKindsTurn(again, kept, i, if mode == Comment then Comment else Bare);
      if move.width == 2 {
        HashKindsTurn(again, kept, i + 1, Bare);
      }
      HashRescan(kinds, again, text, kept, i + move.width, move.next);
    }
  }

  lemma HashIdempotent(text: string)
    ensures HashComments(HashComments(text)) == HashComments(text)
  {
    var kept := HashComments(text);
    HashRescan(HashKinds(text, 0, Bare), HashKinds(kept, 0, Bare), text, kept, 0, Bare);
  }
}
