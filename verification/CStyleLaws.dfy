/** What the C-style scanners of tools/development_residue_hygiene.py do to each form of text. */
module CStyleLaws {
  import opened CommentScanners
  import opened ScannerLaws

  function Alike(n: nat, kind: Kind): (kinds: seq<Kind>)
    ensures |kinds| == n
  {
    seq(n, _ => kind)
  }

  function KeepAll(kept: Kind, kinds: seq<Kind>, text: string): (shown: string)
    requires |kinds| == |text|
  {
    seq(|text|, k requires 0 <= k < |text| => Shown(kinds[k] == kept, text[k]))
  }

  /** The masked text from position `i` on, where the scanner is in code. */
  function MaskedFrom(text: string, quotes: set<char>, i: nat): string
    requires i <= |text|
  {
    KeepAll(CodeText, Kinds(false, quotes, text, i, Code), text[i..])
  }

  /** The extracted comments from position `i` on, where the scanner is in code. */
  function CommentsFrom(text: string, quotes: set<char>, i: nat): string
    requires i <= |text|
  {
    KeepAll(CommentText, Kinds(true, quotes, text, i, Code), text[i..])
  }

  lemma FromBeginning(text: string, quotes: set<char>)
    ensures MaskedText(text, quotes) == MaskedFrom(text, quotes, 0)
    ensures CommentsOf(text, quotes) == CommentsFrom(text, quotes, 0)
    ensures MaskedFrom(text, quotes, |text|) == CommentsFrom(text, quotes, |text|) == ""
  {
    assert text[0..] == text;
  }

  // ----- inside a line comment, a block comment and a string ---------------------------------------------

  lemma {:induction false} LineGoes(nesting: bool, quotes: set<char>, text: string, i: nat, j: nat)
    requires i <= j < |text| && text[j] == '\n' && forall k | i <= k < j :: text[k] != '\n'
    ensures Kinds(nesting, quotes, text, i, Line)
      == Alike(j + 1 - i, CommentText) + Kinds(nesting, quotes, text, j + 1, Code)
    decreases j - i
  {
    if i < j { LineGoes(nesting, quotes, text, i + 1, j); }
  }

  lemma {:induction false} LineEnds(nesting: bool, quotes: set<char>, text: string, i: nat)
    requires i <= |text| && forall k | i <= k < |text| :: text[k] != '\n'
    ensures Kinds(nesting, quotes, text, i, Line) == Alike(|text| - i, CommentText)
    decreases |text| - i
  {
    if i < |text| { LineEnds(nesting, quotes, text, i + 1); }
  }

  /** The masking scanner leaves a block at the first closer, whatever was opened inside. */
  lemma {:induction false} BlockGoes(quotes: set<char>, text: string, i: nat, j: nat, depth: nat)
    requires i <= j && Pair(text, j, '*', '/') && forall k | i <= k < j :: !Pair(text, k, '*', '/')
    ensures Kinds(false, quotes, text, i, Block(depth))
      == Alike(j + 2 - i, CommentText) + Kinds(false, quotes, text, j + 2, Code)
    decreases j - i
  {
    if i < j { BlockGoes(quotes, text, i + 1, j, depth); }
  }

  lemma {:induction false} BlockEnds(quotes: set<char>, text: string, i: nat, depth: nat)
    requires i <= |text| && forall k | i <= k < |text| :: !Pair(text, k, '*', '/')
    ensures Kinds(false, quotes, text, i, Block(depth)) == Alike(|text| - i, CommentText)
    decreases |text| - i
  {
    if i < |text| { BlockEnds(quotes, text, i + 1, depth); }
  }

  lemma StringStep(nesting: bool, quotes: set<char>, text: string, i: nat, quote: char, item: Item)
    requires i + |Start(item)| <= |text| && text[i..i + |Start(item)|] == Start(item)
    requires item.Plain? ==> item.c != quote && item.c != '\\'
    ensures Kinds(nesting, quotes, text, i, Str(quote))
      == Alike(|Start(item)|, LiteralText) + Kinds(nesting, quotes, text, i + |Start(item)|, Str(quote))
  {
    assert text[i] == text[i..i + |Start(item)|][0];
  }

  lemma {:induction false} StringGoes(nesting: bool, quotes: set<char>, text: string, before: string, quote: char,
                                      items: seq<Item>, after: string)
    requires text == before + Quoted(items) + after && StaysInside(items, quote)
    ensures Kinds(nesting, quotes, text, |before|, Str(quote)) == Alike(|Quoted(items)|, LiteralText)
      + Kinds(nesting, quotes, text, |before| + |Quoted(items)|, Str(quote))
    decreases |items|
  {
    hide Kinds;
    if items != [] {
      var first := Start(items[0]);
      QuotedFirst(before, items, after);
      assert items[0] in items;
      StringStep(nesting, quotes, text, |before|, quote, items[0]);
      StringGoes(nesting, quotes, text, before + first, quote, items[1..], after);
    }
  }

  lemma QuotedFirst(before: string, items: seq<Item>, after: string)
    requires items != []
    ensures var text, first := before + Quoted(items) + after, Start(items[0]);
      && text == (before + first) + Quoted(items[1..]) + after && |before| + |first| <= |text|
      && text[|before|..|before| + |first|] == first && |Quoted(items)| == |first| + |Quoted(items[1..])|
  {
    var first, rest := Start(items[0]), Quoted(items[1..]);
    assert Quoted(items) == first + rest;
    Together(before, first, rest, after);
  }

  lemma Together(before: string, first: string, rest: string, after: string)
    ensures var text := before + (first + rest) + after;
      && text == (before + first) + rest + after && |before| + |first| <= |text|
      && text[|before|..|before| + |first|] == first
  {
  }

  // ----- nested block comments -----------------------------------------------------------------------

  /** What stands in a block comment: an opener, a closer, or a character that is part of none. */
  datatype Part = Opener | Closer | Other(c: char)

  function Spelled(part: Part): string { match part case Opener => "/*" case Closer => "*/" case Other(c) => [c] }

  function Written(parts: seq<Part>): string {
    if parts == [] then "" else Spelled(parts[0]) + Written(parts[1..])
  }

  /** From `depth` open blocks the parts close the last one at their end, and not before; no two
      characters that stand alone make an opener or a closer with their neighbour. */
  predicate Nests(parts: seq<Part>, depth: nat) {
    if parts == [] then depth == 0
    else if depth == 0 then false
    else StandsAlone(parts[0], Written(parts[1..])) && Nests(parts[1..], DepthAfter(parts[0], depth))
  }

  /** The blocks are still open at the end of the text. */
  predicate StaysOpen(parts: seq<Part>, depth: nat) {
    if depth == 0 then false
    else if parts == [] then true
    else StandsAlone(parts[0], Written(parts[1..])) && StaysOpen(parts[1..], DepthAfter(parts[0], depth))
  }

  predicate StandsAlone(part: Part, next: string) {
    part.Other? && next != "" ==> [part.c, next[0]] != "/*" && [part.c, next[0]] != "*/"
  }

  function DepthAfter(part: Part, depth: nat): nat
    requires depth > 0
  {
    match part case Opener => depth + 1 case Closer => depth - 1 case Other(_) => depth
  }

  lemma PartStep(quotes: set<char>, text: string, i: nat, part: Part, next: string, depth: nat)
    requires depth > 0 && i + |Spelled(part)| <= |text| && text[i..i + |Spelled(part)|] == Spelled(part)
    requires StandsAlone(part, next)
    requires next == "" && part.Other? ==> i + |Spelled(part)| == |text|
    requires next != "" ==> i + |Spelled(part)| < |text| && text[i + |Spelled(part)|] == next[0]
    ensures var after := DepthAfter(part, depth);
      Kinds(true, quotes, text, i, Block(depth)) == Alike(|Spelled(part)|, CommentText)
        + Kinds(true, quotes, text, i + |Spelled(part)|, if after == 0 then Code else Block(after))
  {
    assert text[i] == text[i..i + |Spelled(part)|][0];
    assert |Spelled(part)| == 2 ==> text[i + 1] == text[i..i + |Spelled(part)|][1];
    assert part.Other? && next != "" ==> [part.c, next[0]][0] == part.c && [part.c, next[0]][1] == next[0];
  }

  lemma {:induction false} NestGoes(quotes: set<char>, text: string, before: string, parts: seq<Part>, after: string,
                                    depth: nat)
    requires text == before + Written(parts) + after && Nests(parts, depth)
    ensures Kinds(true, quotes, text, |before|, if depth == 0 then Code else Block(depth))
      == Alike(|Written(parts)|, CommentText) + Kinds(true, quotes, text, |before| + |Written(parts)|, Code)
    decreases |parts|
  {
    hide Kinds, StandsAlone, Spelled;
    if parts != [] {
      var first, next := Spelled(parts[0]), Written(parts[1..]);
      Regrouped(before, first, next, after);
      LastCloses(parts, depth);
      PartStep(quotes, text, |before|, parts[0], next, depth);
      NestGoes(quotes, text, before + first, parts[1..], after, DepthAfter(parts[0], depth));
    }
  }

  lemma Regrouped(before: string, first: string, next: string, after: string)
    ensures var text := before + (first + next) + after;
      && text == (before + first) + next + after
      && text[|before|..|before| + |first|] == first
      && (next != "" ==> text[|before| + |first|] == next[0])
  {
  }

  /** What is nested ends with a closer. */
  lemma LastCloses(parts: seq<Part>, depth: nat)
    requires parts != [] && Nests(parts, depth)
    ensures parts[0].Other? ==> Written(parts[1..]) != ""
  {
    if parts[0].Other? { assert parts[1..] != []; }
  }

  lemma {:induction false} OpenGoes(quotes: set<char>, text: string, before: string, parts: seq<Part>, depth: nat)
    requires text == before + Written(parts) && StaysOpen(parts, depth)
    ensures Kinds(true, quotes, text, |before|, Block(depth)) == Alike(|Written(parts)|, CommentText)
    decreases |parts|
  {
    hide StandsAlone, Spelled, Kinds;
    if parts != [] {
      var first, next := Spelled(parts[0]), Written(parts[1..]);
      Regrouped(before, first, next, "");
      NothingAfter(before, first + next);
      NothingAfter(before + first, next);
      PartStep(quotes, text, |before|, parts[0], next, depth);
      OpenGoes(quotes, text, before + first, parts[1..], DepthAfter(parts[0], depth));
      assert Alike(|first|, CommentText) + Alike(|next|, CommentText) == Alike(|first| + |next|, CommentText);
    } else {
      NothingLeft(quotes, text, depth);
    }
  }

  lemma NothingAfter(before: string, text: string)
    ensures before + text + "" == before + text
  {
  }

  lemma NothingLeft(quotes: set<char>, text: string, depth: nat)
    ensures Kinds(true, quotes, text, |text|, Block(depth)) == []
  {
  }

  // ----- from positions to text ----------------------------------------------------------------------

  lemma KeepParts(kept: Kind, kinds: seq<Kind>, rest: seq<Kind>, text: string, piece: string, after: string, kind: Kind)
    requires kinds == Alike(|piece|, kind) + rest && text == piece + after && |rest| == |after|
    ensures KeepAll(kept, kinds, text) == ShowAs(kind == kept, piece) + KeepAll(kept, rest, after)
  {
  }

  /** A piece of one kind: code stays in the masked text, */
  lemma PieceMasked(quotes: set<char>, before: string, piece: string, after: string, kind: Kind)
    requires var text, i := before + piece + after, |before|;
      Kinds(false, quotes, text, i, Code)
        == Alike(|piece|, kind) + Kinds(false, quotes, text, i + |piece|, Code)
    ensures var text, i := before + piece + after, |before|;
      MaskedFrom(text, quotes, i) == ShowAs(kind == CodeText, piece) + MaskedFrom(text, quotes, i + |piece|)
  {
    hide *;
    var text, i, n := before + piece + after, |before|, |piece|;
    Suffixes(before, piece, after);
    FromIsKept(text, quotes, i);
    FromIsKept(text, quotes, i + n);
    KeepParts(CodeText, Kinds(false, quotes, text, i, Code), Kinds(false, quotes, text, i + n, Code),
      text[i..], piece, after, kind);
  }

  /** and a comment among the comments. */
  lemma PieceExtracted(quotes: set<char>, before: string, piece: string, after: string, kind: Kind)
    requires var text, i := before + piece + after, |before|;
      Kinds(true, quotes, text, i, Code)
        == Alike(|piece|, kind) + Kinds(true, quotes, text, i + |piece|, Code)
    ensures var text, i := before + piece + after, |before|;
      CommentsFrom(text, quotes, i) == ShowAs(kind == CommentText, piece) + CommentsFrom(text, quotes, i + |piece|)
  {
    hide *;
    var text, i, n := before + piece + after, |before|, |piece|;
    Suffixes(before, piece, after);
    FromIsKept(text, quotes, i);
    FromIsKept(text, quotes, i + n);
    KeepParts(CommentText, Kinds(true, quotes, text, i, Code), Kinds(true, quotes, text, i + n, Code),
      text[i..], piece, after, kind);
  }

  lemma FromIsKept(text: string, quotes: set<char>, i: nat)
    requires i <= |text|
    ensures MaskedFrom(text, quotes, i) == KeepAll(CodeText, Kinds(false, quotes, text, i, Code), text[i..])
    ensures CommentsFrom(text, quotes, i) == KeepAll(CommentText, Kinds(true, quotes, text, i, Code), text[i..])
  {
  }

  lemma EndIsKind(nesting: bool, quotes: set<char>, before: string, piece: string, kind: Kind)
    requires Kinds(nesting, quotes, before + piece, |before|, Code) == Alike(|piece|, kind)
    ensures var text := before + piece + "";
      Kinds(nesting, quotes, text, |before|, Code)
        == Alike(|piece|, kind) + Kinds(nesting, quotes, text, |before| + |piece|, Code)
  {
    assert before + piece + "" == before + piece;
  }

  // ----- the laws: what each form of text gives, wherever it stands in code -----------------------------

  lemma Opens(nesting: bool, quotes: set<char>, text: string, i: nat)
    requires i < |text|
    ensures Pair(text, i, '/', '/') ==>
      Kinds(nesting, quotes, text, i, Code) == Alike(2, CommentText) + Kinds(nesting, quotes, text, i + 2, Line)
    ensures Pair(text, i, '/', '*') ==>
      Kinds(nesting, quotes, text, i, Code) == Alike(2, CommentText) + Kinds(nesting, quotes, text, i + 2, Block(1))
    ensures text[i] in quotes && text[i] != '/' ==>
      Kinds(nesting, quotes, text, i, Code) == Alike(1, LiteralText) + Kinds(nesting, quotes, text, i + 1, Str(text[i]))
  {
  }

  lemma PlainKinds(nesting: bool, quotes: set<char>, text: string, i: nat)
    requires i < |text| && text[i] !in quotes && !Pair(text, i, '/', '/') && !Pair(text, i, '/', '*')
    ensures Kinds(nesting, quotes, text, i, Code) == Alike(1, CodeText) + Kinds(nesting, quotes, text, i + 1, Code)
  {
  }

  lemma OpensNothing(before: string, c: char, after: string)
    requires !(c == '/' && after != "" && after[0] in {'/', '*'})
    ensures var text, i := before + [c] + after, |before|;
      text[i] == c && !Pair(text, i, '/', '/') && !Pair(text, i, '/', '*')
  {
    var text, i := before + [c] + after, |before|;
    assert text[i] == c && (after != "" ==> text[i + 1] == after[0]);
  }

  /** A character that opens nothing is code. */
  lemma PlainCharacter(quotes: set<char>, before: string, c: char, after: string)
    requires c !in quotes && !(c == '/' && after != "" && after[0] in {'/', '*'})
    ensures var text, i := before + [c] + after, |before|;
      && MaskedFrom(text, quotes, i) == [c] + MaskedFrom(text, quotes, i + 1)
      && CommentsFrom(text, quotes, i) == BlankText([c]) + CommentsFrom(text, quotes, i + 1)
  {
    hide Kinds;
    var text, i := before + [c] + after, |before|;
    OpensNothing(before, c, after);
    PlainKinds(false, quotes, text, i);
    PlainKinds(true, quotes, text, i);
    PieceMasked(quotes, before, [c], after, CodeText);
    PieceExtracted(quotes, before, [c], after, CodeText);
    ShowAsIs([c]);
  }

  lemma LineKinds(nesting: bool, quotes: set<char>, before: string, body: string, after: string)
    requires '\n' !in body
    ensures var piece := "//" + body + "\n"; var text, i := before + piece + after, |before|;
      Kinds(nesting, quotes, text, i, Code)
        == Alike(|piece|, CommentText) + Kinds(nesting, quotes, text, i + |piece|, Code)
  {
    hide Kinds;
    var piece := "//" + body + "\n";
    var text, i, j := before + piece + after, |before|, |before| + 2 + |body|;
    assert text[i] == piece[0] && text[i + 1] == piece[1] && text[j] == piece[2 + |body|];
    assert forall k | i + 2 <= k < j :: text[k] == piece[k - i] == body[k - i - 2];
    Opens(nesting, quotes, text, i);
    LineGoes(nesting, quotes, text, i + 2, j);
    assert Alike(2, CommentText) + Alike(j + 1 - (i + 2), CommentText) == Alike(|piece|, CommentText);
  }

  lemma LastLineKinds(nesting: bool, quotes: set<char>, before: string, body: string)
    requires '\n' !in body
    ensures var piece := "//" + body;
      Kinds(nesting, quotes, before + piece, |before|, Code) == Alike(|piece|, CommentText)
  {
    hide Kinds;
    var piece := "//" + body;
    var text, i := before + piece, |before|;
    assert text[i] == piece[0] && text[i + 1] == piece[1];
    assert forall k | i + 2 <= k < |text| :: text[k] == piece[k - i] == body[k - i - 2];
    Opens(nesting, quotes, text, i);
    LineEnds(nesting, quotes, text, i + 2);
    assert Alike(2, CommentText) + Alike(|text| - (i + 2), CommentText) == Alike(|piece|, CommentText);
  }

  /** A line comment goes up to its newline. */
  lemma LineComment(quotes: set<char>, before: string, body: string, after: string)
    requires '\n' !in body
    ensures var piece := "//" + body + "\n"; var text, i := before + piece + after, |before|;
      && MaskedFrom(text, quotes, i) == BlankText(piece) + MaskedFrom(text, quotes, i + |piece|)
      && CommentsFrom(text, quotes, i) == piece + CommentsFrom(text, quotes, i + |piece|)
  {
    hide Kinds;
    var piece := "//" + body + "\n";
    LineKinds(false, quotes, before, body, after);
    LineKinds(true, quotes, before, body, after);
    PieceMasked(quotes, before, piece, after, CommentText);
    PieceExtracted(quotes, before, piece, after, CommentText);
    ShowAsIs(piece);
  }

  /** Or up to the end of the text. */
  lemma LastLineComment(quotes: set<char>, before: string, body: string)
    requires '\n' !in body
    ensures var piece := "//" + body; var text, i := before + piece + "", |before|;
      && MaskedFrom(text, quotes, i) == BlankText(piece) + MaskedFrom(text, quotes, |text|)
      && CommentsFrom(text, quotes, i) == piece + CommentsFrom(text, quotes, |text|)
  {
    hide Kinds;
    var piece := "//" + body;
    LastLineKinds(false, quotes, before, body);
    LastLineKinds(true, quotes, before, body);
    EndIsKind(false, quotes, before, piece, CommentText);
    EndIsKind(true, quotes, before, piece, CommentText);
    PieceMasked(quotes, before, piece, "", CommentText);
    PieceExtracted(quotes, before, piece, "", CommentText);
    ShowAsIs(piece);
  }

  /** In code that is masked a block comment ends at the first closer. */
  lemma BlockMasked(quotes: set<char>, before: string, body: string, after: string)
    requires forall k | 0 <= k < |body| :: !Pair(body + "*/", k, '*', '/')
    ensures var piece := "/*" + body + "*/"; var text, i := before + piece + after, |before|;
      MaskedFrom(text, quotes, i) == BlankText(piece) + MaskedFrom(text, quotes, i + |piece|)
  {
    hide *;
    var piece, rest := "/*" + body + "*/", body + "*/";
    var text, i, j := before + piece + after, |before|, |before| + 2 + |body|;
    assert piece == "/*" + rest;
    PairsInText(before, piece, after, '*', '/');
    PairsInText(before, piece, after, '/', '*');
    PairsInText("/*", rest, "", '*', '/');
    assert "/*" + rest + "" == piece;
    PairsOf(body);
    forall k | i + 2 <= k < j
      ensures !Pair(text, k, '*', '/')
    {
      assert !Pair(rest, k - i - 2, '*', '/');
    }
    BlockAt(quotes, text, i, j);
    PieceMasked(quotes, before, piece, after, CommentText);
    ShowAsIs(piece);
  }

  /** Pairs of characters within a piece are those of the text it stands in. */
  lemma PairsInText(before: string, piece: string, after: string, a: char, b: char)
    ensures var text := before + piece + after;
      && |before| + |piece| <= |text|
      && forall k | |before| <= k && k + 1 < |before| + |piece| :: (
           Pair(text, k, a, b) <==> Pair(piece, k - |before|, a, b))
  {
    InText(before, piece, after);
    var text := before + piece + after;
    forall k | |before| <= k && k + 1 < |before| + |piece|
      ensures Pair(text, k, a, b) <==> Pair(piece, k - |before|, a, b)
    {
      assert text[k] == piece[k - |before|] && text[k + 1] == piece[k + 1 - |before|];
    }
  }

  lemma PairsOf(body: string)
    ensures Pair("/*" + body + "*/", 0, '/', '*') && Pair("/*" + body + "*/", |body| + 2, '*', '/')
  {
    var piece := "/*" + body + "*/";
    assert piece[0] == '/' && piece[1] == '*' && piece[|body| + 2] == '*' && piece[|body| + 3] == '/';
  }

  lemma BlockAt(quotes: set<char>, text: string, i: nat, j: nat)
    requires i + 2 <= j && Pair(text, i, '/', '*') && Pair(text, j, '*', '/')
    requires forall k | i + 2 <= k < j :: !Pair(text, k, '*', '/')
    ensures j + 2 <= |text| && Kinds(false, quotes, text, i, Code)
      == Alike(j + 2 - i, CommentText) + Kinds(false, quotes, text, j + 2, Code)
  {
    hide Kinds;
    Opens(false, quotes, text, i);
    BlockGoes(quotes, text, i + 2, j, 1);
    assert Alike(2, CommentText) + Alike(j + 2 - (i + 2), CommentText) == Alike(j + 2 - i, CommentText);
  }

  lemma OpenBlockMasked(quotes: set<char>, before: string, body: string)
    requires forall k | 0 <= k < |body| :: !Pair(body, k, '*', '/')
    ensures var piece := "/*" + body; var text, i := before + piece + "", |before|;
      MaskedFrom(text, quotes, i) == BlankText(piece) + MaskedFrom(text, quotes, |text|)
  {
    hide Kinds;
    var piece := "/*" + body;
    var text, i := before + piece, |before|;
    assert text[i] == piece[0] && text[i + 1] == piece[1];
    assert forall k | i + 2 <= k < |text| :: text[k] == piece[k - i] == body[k - i - 2];
    forall k | i + 2 <= k < |text|
      ensures !Pair(text, k, '*', '/')
    {
      assert !Pair(body, k - i - 2, '*', '/');
    }
    Opens(false, quotes, text, i);
    BlockEnds(quotes, text, i + 2, 1);
    assert Alike(2, CommentText) + Alike(|text| - (i + 2), CommentText) == Alike(|piece|, CommentText);
    EndIsKind(false, quotes, before, piece, CommentText);
    PieceMasked(quotes, before, piece, "", CommentText);
    ShowAsIs(piece);
  }

  /** Where comments are extracted a block comment ends when all blocks opened in it are closed. */
  lemma BlockExtracted(quotes: set<char>, before: string, parts: seq<Part>, after: string)
    requires Nests(parts, 1)
    ensures var piece := "/*" + Written(parts); var text, i := before + piece + after, |before|;
      CommentsFrom(text, quotes, i) == piece + CommentsFrom(text, quotes, i + |piece|)
  {
    hide Kinds, Nests, Written;
    var inside := Written(parts);
    var piece := "/*" + inside;
    var text, i := before + piece + after, |before|;
    assert text[i] == piece[0] && text[i + 1] == piece[1];
    Opens(true, quotes, text, i);
    assert text == (before + "/*") + inside + after;
    NestGoes(quotes, text, before + "/*", parts, after, 1);
    assert Alike(2, CommentText) + Alike(|inside|, CommentText) == Alike(|piece|, CommentText);
    PieceExtracted(quotes, before, piece, after, CommentText);
    ShowAsIs(piece);
  }

  lemma OpenBlockExtracted(quotes: set<char>, before: string, parts: seq<Part>)
    requires StaysOpen(parts, 1)
    ensures var piece := "/*" + Written(parts); var text, i := before + piece + "", |before|;
      CommentsFrom(text, quotes, i) == piece + CommentsFrom(text, quotes, |text|)
  {
    hide Kinds, StaysOpen, Written;
    var inside := Written(parts);
    var piece := "/*" + inside;
    var text, i := before + piece, |before|;
    assert text[i] == piece[0] && text[i + 1] == piece[1];
    Opens(true, quotes, text, i);
    assert text == (before + "/*") + inside;
    OpenGoes(quotes, text, before + "/*", parts, 1);
    assert Alike(2, CommentText) + Alike(|inside|, CommentText) == Alike(|piece|, CommentText);
    EndIsKind(true, quotes, before, piece, CommentText);
    PieceExtracted(quotes, before, piece, "", CommentText);
    ShowAsIs(piece);
  }

  lemma StringCloses(nesting: bool, quotes: set<char>, text: string, i: nat, quote: char)
    requires i < |text| && text[i] == quote && quote != '\\'
    ensures Kinds(nesting, quotes, text, i, Str(quote))
      == Alike(1, LiteralText) + Kinds(nesting, quotes, text, i + 1, Code)
  {
  }

  lemma StringStops(nesting: bool, quotes: set<char>, text: string, i: nat, quote: char)
    requires i == |text| || (i == |text| - 1 && text[i] == '\\')
    ensures Kinds(nesting, quotes, text, i, Str(quote)) == Alike(|text| - i, LiteralText)
  {
  }

  lemma StringKinds(nesting: bool, quotes: set<char>, before: string, quote: char, items: seq<Item>, after: string)
    requires QuoteSet(quotes) && quote in quotes && StaysInside(items, quote)
    ensures var piece := [quote] + Quoted(items) + [quote]; var text, i := before + piece + after, |before|;
      Kinds(nesting, quotes, text, i, Code)
        == Alike(|piece|, LiteralText) + Kinds(nesting, quotes, text, i + |piece|, Code)
  {
    hide Kinds, Quoted;
    var inside := Quoted(items);
    var piece := [quote] + inside + [quote];
    var text, i, j := before + piece + after, |before|, |before| + 1 + |inside|;
    assert text[i] == piece[0] && text[j] == piece[1 + |inside|];
    assert text == (before + [quote]) + inside + ([quote] + after);
    Opens(nesting, quotes, text, i);
    StringGoes(nesting, quotes, text, before + [quote], quote, items, [quote] + after);
    StringCloses(nesting, quotes, text, j, quote);
    assert Alike(1, LiteralText) + Alike(|inside|, LiteralText) + Alike(1, LiteralText) == Alike(|piece|, LiteralText);
  }

  lemma OpenStringKinds(nesting: bool, quotes: set<char>, before: string, quote: char, items: seq<Item>, last: string)
    requires QuoteSet(quotes) && quote in quotes && StaysInside(items, quote) && last in {"", "\\"}
    ensures var piece := [quote] + Quoted(items) + last;
      Kinds(nesting, quotes, before + piece, |before|, Code) == Alike(|piece|, LiteralText)
  {
    hide Kinds, Quoted;
    var inside := Quoted(items);
    var piece := [quote] + inside + last;
    var text, i, j := before + piece, |before|, |before| + 1 + |inside|;
    assert text[i] == piece[0] && (j < |text| ==> text[j] == piece[1 + |inside|] == last[0]);
    assert text == (before + [quote]) + inside + last;
    Opens(nesting, quotes, text, i);
    StringGoes(nesting, quotes, text, before + [quote], quote, items, last);
    StringStops(nesting, quotes, text, j, quote);
    assert Alike(1, LiteralText) + Alike(|inside|, LiteralText) + Alike(|last|, LiteralText)
      == Alike(|piece|, LiteralText);
  }

  /** A string is dropped by both; a backslash keeps the next character inside. */
  lemma StringDropped(quotes: set<char>, before: string, quote: char, items: seq<Item>, after: string)
    requires QuoteSet(quotes) && quote in quotes && StaysInside(items, quote)
    ensures var piece := [quote] + Quoted(items) + [quote]; var text, i := before + piece + after, |before|;
      && MaskedFrom(text, quotes, i) == BlankText(piece) + MaskedFrom(text, quotes, i + |piece|)
      && CommentsFrom(text, quotes, i) == BlankText(piece) + CommentsFrom(text, quotes, i + |piece|)
  {
    hide Kinds, Quoted;
    var piece := [quote] + Quoted(items) + [quote];
    StringKinds(false, quotes, before, quote, items, after);
    StringKinds(true, quotes, before, quote, items, after);
    PieceMasked(quotes, before, piece, after, LiteralText);
    PieceExtracted(quotes, before, piece, after, LiteralText);
    ShowAsIs(piece);
  }

  lemma OpenStringDropped(quotes: set<char>, before: string, quote: char, items: seq<Item>, last: string)
    requires QuoteSet(quotes) && quote in quotes && StaysInside(items, quote) && last in {"", "\\"}
    ensures var piece := [quote] + Quoted(items) + last; var text, i := before + piece + "", |before|;
      && MaskedFrom(text, quotes, i) == BlankText(piece) + MaskedFrom(text, quotes, |text|)
      && CommentsFrom(text, quotes, i) == BlankText(piece) + CommentsFrom(text, quotes, |text|)
  {
    hide Kinds, Quoted;
    var piece := [quote] + Quoted(items) + last;
    OpenStringKinds(false, quotes, before, quote, items, last);
    OpenStringKinds(true, quotes, before, quote, items, last);
    EndIsKind(false, quotes, before, piece, LiteralText);
    EndIsKind(true, quotes, before, piece, LiteralText);
    PieceMasked(quotes, before, piece, "", LiteralText);
    PieceExtracted(quotes, before, piece, "", LiteralText);
    ShowAsIs(piece);
  }
}
