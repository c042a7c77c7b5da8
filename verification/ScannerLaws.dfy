/** What the scanners of tools/development_residue_hygiene.py do to each form of text: plain
    characters, line and block comments, quoted strings with escapes, and what is not closed. */
module ScannerLaws {
  import opened Chars
  import opened CommentScanners

  // ---------------------------------------------------------------------------------
  // Shell and configuration comments
  // ---------------------------------------------------------------------------------

  /** A character of a double-quoted string: itself, or any character behind a backslash. */
  datatype Item = Plain(c: char) | Escaped(c: char)

  function Quoted(items: seq<Item>): string {
    if items == [] then "" else
      (match items[0] case Plain(c) => [c] case Escaped(c) => ['\\', c]) + Quoted(items[1..])
  }

  /** Nothing in the string closes it early. */
  predicate StaysInside(items: seq<Item>, quote: char) {
    forall item | item in items :: item.Plain? ==> item.c != quote && item.c != '\\'
  }

  function Marks(n: nat, marked: bool): (marks: seq<bool>)
    ensures |marks| == n
  {
    seq(n, _ => marked)
  }

  /** The result from position `i` on, where the scanner is outside quotes and comments. */
  function From(text: string, i: nat): (rest: string)
    requires i <= |text|
  {
    ShowAll(HashKinds(text, i, Bare), text[i..])
  }

  function ShowAll(marks: seq<bool>, text: string): (shown: string)
    requires |marks| == |text|
  {
    seq(|text|, k requires 0 <= k < |text| => Shown(marks[k], text[k]))
  }

  lemma ShowBoth(a: seq<bool>, b: seq<bool>, first: string, second: string)
    requires |a| == |first| && |b| == |second|
    ensures ShowAll(a + b, first + second) == ShowAll(a, first) + ShowAll(b, second)
  {
  }

  lemma FromStart(text: string)
    ensures HashComments(text) == From(text, 0)
  {
    assert text[0..] == text;
  }

  /** What precedes a number sign that starts a comment. */
  predicate Boundary(before: string) {
    before == "" || IsSpace(before[|before| - 1]) || before[|before| - 1] in {';', '|', '&', '(', ')'}
  }

  lemma {:induction false} SingleGoes(text: string, i: nat, j: nat)
    requires i <= j < |text| && text[j] == '\'' && forall k | i <= k < j :: text[k] != '\''
    ensures HashKinds(text, i, Single) == Marks(j + 1 - i, false) + HashKinds(text, j + 1, Bare)
    decreases j - i
  {
    if i < j { SingleGoes(text, i + 1, j); }
  }

  lemma {:induction false} SingleEnds(text: string, i: nat)
    requires i <= |text| && forall k | i <= k < |text| :: text[k] != '\''
    ensures HashKinds(text, i, Single) == Marks(|text| - i, false)
    decreases |text| - i
  {
    if i < |text| { SingleEnds(text, i + 1); }
  }

  lemma {:induction false} CommentGoes(text: string, i: nat, j: nat)
    requires i <= j < |text| && text[j] == '\n' && forall k | i <= k < j :: text[k] != '\n'
    ensures HashKinds(text, i, Comment) == Marks(j + 1 - i, true) + HashKinds(text, j + 1, Bare)
    decreases j - i
  {
    if i < j { CommentGoes(text, i + 1, j); }
  }

  lemma {:induction false} CommentEnds(text: string, i: nat)
    requires i <= |text| && forall k | i <= k < |text| :: text[k] != '\n'
    ensures HashKinds(text, i, Comment) == Marks(|text| - i, true)
    decreases |text| - i
  {
    if i < |text| { CommentEnds(text, i + 1); }
  }

  function Start(item: Item): string { match item case Plain(c) => [c] case Escaped(c) => ['\\', c] }

  lemma DoubleStep(text: string, i: nat, item: Item)
    requires i + |Start(item)| <= |text| && text[i..i + |Start(item)|] == Start(item)
    requires item.Plain? ==> item.c != '"' && item.c != '\\'
    ensures HashKinds(text, i, Double)
      == Marks(|Start(item)|, false) + HashKinds(text, i + |Start(item)|, Double)
  {
    assert text[i] == text[i..i + |Start(item)|][0];
  }

  lemma {:induction false} DoubleGoes(text: string, before: string, items: seq<Item>, after: string)
    requires text == before + Quoted(items) + after && StaysInside(items, '"')
    ensures HashKinds(text, |before|, Double)
      == Marks(|Quoted(items)|, false) + HashKinds(text, |before| + |Quoted(items)|, Double)
    decreases |items|
  {
    hide HashKinds;
    if items != [] {
      var first := Start(items[0]);
      assert text == (before + first) + Quoted(items[1..]) + after;
      assert text[|before|..|before| + |first|] == first;
      assert items[0] in items;
      DoubleStep(text, |before|, items[0]);
      DoubleGoes(text, before + first, items[1..], after);
    }
  }

  /** From a turn-by-turn result to the text: the piece as shown, then what follows. */
  lemma PieceShown(before: string, piece: string, after: string, marked: bool)
    requires var text, i := before + piece + after, |before|;
      HashKinds(text, i, Bare) == Marks(|piece|, marked) + HashKinds(text, i + |piece|, Bare)
    ensures var text := before + piece + after;
      From(text, |before|) == ShowAs(marked, piece) + From(text, |before| + |piece|)
  {
    hide *;
    Suffixes(before, piece, after);
    FromParts(before + piece + after, |before|, piece, after, marked);
  }

  lemma FromParts(text: string, i: nat, piece: string, after: string, marked: bool)
    requires i + |piece| <= |text| && text[i..] == piece + after && text[i + |piece|..] == after
    requires HashKinds(text, i, Bare) == Marks(|piece|, marked) + HashKinds(text, i + |piece|, Bare)
    ensures From(text, i) == ShowAs(marked, piece) + From(text, i + |piece|)
  {
    hide *;
    FromIs(text, i);
    FromIs(text, i + |piece|);
    ShowParts(HashKinds(text, i, Bare), HashKinds(text, i + |piece|, Bare), text[i..], piece, after, marked);
  }

  lemma FromIs(text: string, i: nat)
    requires i <= |text|
    ensures From(text, i) == ShowAll(HashKinds(text, i, Bare), text[i..])
  {
  }

  lemma ShowParts(kinds: seq<bool>, rest: seq<bool>, text: string, piece: string, after: string, marked: bool)
    requires kinds == Marks(|piece|, marked) + rest && text == piece + after && |rest| == |after|
    ensures ShowAll(kinds, text) == ShowAs(marked, piece) + ShowAll(rest, after)
  {
    ShowBoth(Marks(|piece|, marked), rest, piece, after);
    ShowMarks(piece, marked);
  }

  lemma Suffixes(before: string, piece: string, after: string)
    ensures var text := before + piece + after;
      |before| + |piece| <= |text| && text[|before|..] == piece + after && text[|before| + |piece|..] == after
  {
  }

  lemma ShowMarks(piece: string, marked: bool)
    ensures ShowAll(Marks(|piece|, marked), piece) == ShowAs(marked, piece)
  {
  }

  /** The same for the end of the text. */
  lemma LastShown(before: string, piece: string, marked: bool)
    requires HashKinds(before + piece, |before|, Bare) == Marks(|piece|, marked)
    ensures From(before + piece, |before|) == ShowAs(marked, piece)
  {
    hide HashKinds;
    assert (before + piece)[|before|..] == piece;
    assert ShowAll(Marks(|piece|, marked), piece) == ShowAs(marked, piece);
  }

  function ShowAs(marked: bool, piece: string): (shown: string)
  {
    seq(|piece|, k requires 0 <= k < |piece| => Shown(marked, piece[k]))
  }

  lemma ShowAsIs(piece: string)
    ensures ShowAs(true, piece) == piece && ShowAs(false, piece) == BlankText(piece)
  {
  }

  // ----- the laws: what each form of text gives, wherever it stands outside quotes and comments ----------

  /** A single-quoted string is dropped; a backslash is nothing special in it. */
  lemma HashSingle(before: string, q: string, after: string)
    requires '\'' !in q
    ensures var piece := "'" + q + "'"; var text := before + piece + after;
      From(text, |before|) == BlankText(piece) + From(text, |before| + |piece|)
  {
    hide *;
    var piece := "'" + q + "'";
    InText(before, piece, after);
    forall k | |before| < k <= |before| + |q|
      ensures (before + piece + after)[k] != '\''
    {
      assert piece[k - |before|] == q[k - |before| - 1] && q[k - |before| - 1] in q;
    }
    assert piece[0] == piece[|q| + 1] == '\'';
    SingleAt(before + piece + after, |before|, |q|);
    PieceShown(before, piece, after, false);
    ShowAsIs(piece);
  }

  /** A piece stands in the text where it was put. */
  lemma InText(before: string, piece: string, after: string)
    ensures var text := before + piece + after;
      |before| + |piece| <= |text| && forall k | 0 <= k < |piece| :: text[|before| + k] == piece[k]
  {
  }

  lemma SingleAt(text: string, i: nat, n: nat)
    requires i + n + 2 <= |text| && text[i] == '\'' && text[i + n + 1] == '\''
    requires forall k | i < k <= i + n :: text[k] != '\''
    ensures HashKinds(text, i, Bare) == Marks(n + 2, false) + HashKinds(text, i + n + 2, Bare)
  {
    hide *;
    OpenSingle(text, i);
    SingleGoes(text, i + 1, i + 1 + n);
    MarksTogether(1, n + 1, false);
  }

  lemma MarksTogether(m: nat, n: nat, marked: bool)
    ensures Marks(m, marked) + Marks(n, marked) == Marks(m + n, marked)
  {
  }

  lemma OpenSingle(text: string, i: nat)
    requires i < |text| && text[i] == '\''
    ensures HashKinds(text, i, Bare) == Marks(1, false) + HashKinds(text, i + 1, Single)
  {
  }

  lemma OpenDouble(text: string, i: nat)
    requires i < |text| && text[i] == '"'
    ensures HashKinds(text, i, Bare) == Marks(1, false) + HashKinds(text, i + 1, Double)
  {
  }

  lemma CloseDouble(text: string, i: nat)
    requires i < |text| && text[i] == '"'
    ensures HashKinds(text, i, Double) == Marks(1, false) + HashKinds(text, i + 1, Bare)
  {
  }

  /** A double-quoted string is dropped; a backslash keeps the next character inside. */
  lemma HashDouble(before: string, items: seq<Item>, after: string)
    requires StaysInside(items, '"')
    ensures var piece := "\"" + Quoted(items) + "\""; var text := before + piece + after;
      From(text, |before|) == BlankText(piece) + From(text, |before| + |piece|)
  {
    hide HashKinds, HashTurn, Quoted;
    var inside := Quoted(items);
    var piece := "\"" + inside + "\"";
    var text, i := before + piece + after, |before|;
    assert text == (before + "\"") + inside + ("\"" + after);
    assert text[i] == piece[0] && text[i + 1 + |inside|] == piece[1 + |inside|];
    OpenDouble(text, i);
    DoubleGoes(text, before + "\"", items, "\"" + after);
    CloseDouble(text, i + 1 + |inside|);
    assert Marks(1, false) + Marks(|inside|, false) + Marks(1, false) == Marks(|piece|, false);
    PieceShown(before, piece, after, false);
    ShowAsIs(piece);
  }

  /** A backslash drops the character behind it, also a quote or a number sign. */
  lemma HashEscape(before: string, c: char, after: string)
    ensures var piece := ['\\', c]; var text := before + piece + after;
      From(text, |before|) == BlankText(piece) + From(text, |before| + 2)
  {
    var piece := ['\\', c];
    var text, i := before + piece + after, |before|;
    assert text[i] == piece[0];
    assert HashKinds(text, i, Bare) == Marks(2, false) + HashKinds(text, i + 2, Bare);
    PieceShown(before, piece, after, false);
    ShowAsIs(piece);
  }

  /** A comment is kept up to its newline. */
  lemma HashRemark(before: string, body: string, after: string)
    requires '\n' !in body && Boundary(before)
    ensures var piece := "#" + body + "\n"; var text := before + piece + after;
      From(text, |before|) == piece + From(text, |before| + |piece|)
  {
    hide *;
    var piece := "#" + body + "\n";
    InText(before, piece, after);
    forall k | |before| < k <= |before| + |body|
      ensures (before + piece + after)[k] != '\n'
    {
      assert piece[k - |before|] == body[k - |before| - 1] && body[k - |before| - 1] in body;
    }
    assert piece[|body| + 1] == '\n';
    OpenRemark(before, piece + after);
    assert before + piece + after == before + (piece + after);
    RemarkAt(before + piece + after, |before|, |body|);
    PieceShown(before, piece, after, true);
    ShowAsIs(piece);
  }

  lemma RemarkAt(text: string, i: nat, n: nat)
    requires i + n + 2 <= |text| && text[i + n + 1] == '\n' && forall k | i < k <= i + n :: text[k] != '\n'
    requires HashKinds(text, i, Bare) == Marks(1, true) + HashKinds(text, i + 1, Comment)
    ensures HashKinds(text, i, Bare) == Marks(n + 2, true) + HashKinds(text, i + n + 2, Bare)
  {
    hide *;
    CommentGoes(text, i + 1, i + 1 + n);
    MarksTogether(1, n + 1, true);
  }

  lemma OpenRemark(before: string, rest: string)
    requires Boundary(before) && rest != "" && rest[0] == '#'
    ensures var text, i := before + rest, |before|;
      HashKinds(text, i, Bare) == Marks(1, true) + HashKinds(text, i + 1, Comment)
  {
    var text, i := before + rest, |before|;
    assert text[i] == '#' && (i > 0 ==> text[i - 1] == before[i - 1]);
  }

  /** Any other character is dropped, and so is a number sign inside a word. */
  lemma HashPlain(before: string, c: char, after: string)
    requires c !in {'\\', '\'', '"'} && (c == '#' ==> !Boundary(before))
    ensures var text := before + [c] + after;
      From(text, |before|) == BlankText([c]) + From(text, |before| + 1)
  {
    var text, i := before + [c] + after, |before|;
    assert text[i] == c && (i > 0 ==> text[i - 1] == before[i - 1]);
    assert HashKinds(text, i, Bare) == Marks(1, false) + HashKinds(text, i + 1, Bare);
    PieceShown(before, [c], after, false);
    ShowAsIs([c]);
  }

  /** At the end of the text: a comment without a newline is kept, and what is not closed is
      dropped. */
  lemma HashLastRemark(before: string, body: string)
    requires '\n' !in body && Boundary(before)
    ensures From(before + ("#" + body), |before|) == "#" + body
  {
    var piece := "#" + body;
    var text, i := before + piece, |before|;
    assert forall k | i <= k < |text| :: text[k] == piece[k - i];
    assert forall k | i + 1 <= k < |text| :: text[k] == body[k - i - 1];
    OpenRemark(before, piece);
    CommentEnds(text, i + 1);
    hide HashKinds;
    assert Marks(1, true) + Marks(|body|, true) == Marks(|piece|, true);
    LastShown(before, piece, true);
    ShowAsIs(piece);
  }

  lemma HashOpenSingle(before: string, q: string)
    requires '\'' !in q
    ensures From(before + ("'" + q), |before|) == BlankText("'" + q)
  {
    var piece := "'" + q;
    var text, i := before + piece, |before|;
    assert forall k | i <= k < |text| :: text[k] == piece[k - i];
    assert forall k | i + 1 <= k < |text| :: text[k] == q[k - i - 1];
    OpenSingle(text, i);
    SingleEnds(text, i + 1);
    hide HashKinds;
    assert Marks(1, false) + Marks(|q|, false) == Marks(|piece|, false);
    LastShown(before, piece, false);
    ShowAsIs(piece);
  }

  lemma HashOpenDouble(before: string, items: seq<Item>, last: string)
    requires StaysInside(items, '"') && last in {"", "\\"}
    ensures From(before + ("\"" + Quoted(items) + last), |before|) == BlankText("\"" + Quoted(items) + last)
  {
    hide HashKinds, Quoted;
    var inside := Quoted(items);
    var piece := "\"" + inside + last;
    var text, i := before + piece, |before|;
    assert text == (before + "\"") + inside + last;
    assert text[i] == piece[0];
    assert forall k | i + 1 + |inside| <= k < |text| :: text[k] == last[k - i - 1 - |inside|];
    OpenDouble(text, i);
    DoubleGoes(text, before + "\"", items, last);
    LastDouble(text, i + 1 + |inside|);
    assert Marks(1, false) + Marks(|inside|, false) + Marks(|last|, false) == Marks(|piece|, false);
    LastShown(before, piece, false);
    ShowAsIs(piece);
  }

  lemma LastDouble(text: string, i: nat)
    requires i == |text| || (i == |text| - 1 && text[i] == '\\')
    ensures HashKinds(text, i, Double) == Marks(|text| - i, false)
  {
  }

  lemma HashLastBackslash(before: string)
    ensures From(before + "\\", |before|) == " "
  {
    var text := before + "\\";
    assert text[|before|] == '\\';
    assert HashKinds(text, |before|, Bare) == Marks(1, false);
  }

  lemma HashNothing(text: string)
    ensures From(text, |text|) == ""
  {
  }

  /** These are all forms a text outside quotes can begin with. */
  lemma HashForms(before: string, rest: string)
    requires rest != ""
    ensures
      || (exists q, after :: '\'' !in q && rest == "'" + q + "'" + after)
      || (exists q :: '\'' !in q && rest == "'" + q)
      || (exists items, after :: StaysInside(items, '"') && rest == "\"" + Quoted(items) + "\"" + after)
      || (exists items, last :: StaysInside(items, '"') && last in {"", "\\"} && rest == "\"" + Quoted(items) + last)
      || (exists c, after :: rest == ['\\', c] + after)
      || rest == "\\"
      || (Boundary(before) && exists body, after :: '\n' !in body && rest == "#" + body + "\n" + after)
      || (Boundary(before) && exists body :: '\n' !in body && rest == "#" + body)
      || (exists c: char, after ::
            c !in {'\\', '\'', '"'} && (c == '#' ==> !Boundary(before)) && rest == [c] + after)
  {
    var c, tail := rest[0], rest[1..];
    assert rest == [c] + tail;
    if c == '\'' {
      Cut(tail, '\'', "'");
    } else if c == '"' {
      var items, last, after := DoubleForm(tail);
      if last == "\"" {
        assert rest == "\"" + Quoted(items) + "\"" + after;
      } else {
        assert rest == "\"" + Quoted(items) + last;
      }
    } else if c == '\\' {
      if |tail| > 0 { assert rest == ['\\', tail[0]] + tail[1..]; }
    } else if c == '#' && Boundary(before) {
      Cut(tail, '\n', "#");
    }
  }

  /** A text up to the first `end`, or without one. */
  lemma {:induction false} Cut(text: string, end: char, start: string)
    ensures (exists body, after :: end !in body && start + text == start + body + [end] + after)
      || (exists body :: end !in body && start + text == start + body)
  {
    if end in text {
      var k := CutAt(text, end);
      assert end !in text[..k];
      assert start + text == start + text[..k] + [end] + text[k + 1..];
    } else {
      assert start + text == start + text;
    }
  }

  lemma {:induction false} CutAt(text: string, end: char) returns (k: nat)
    requires end in text
    ensures k < |text| && text[k] == end && end !in text[..k]
  {
    if text[0] == end {
      k := 0;
    } else {
      k := CutAt(text[1..], end);
      k := k + 1;
      assert text[..k] == [text[0]] + text[1..][..k - 1];
    }
  }

  lemma {:induction false} DoubleForm(text: string) returns (items: seq<Item>, last: string, after: string)
    ensures StaysInside(items, '"') && text == Quoted(items) + last + after
    ensures last == "\"" || (last in {"", "\\"} && after == "")
  {
    if text == "" {
      items, last, after := [], "", "";
    } else if text[0] == '"' {
      items, last, after := [], "\"", text[1..];
    } else if text[0] == '\\' {
      if |text| == 1 {
        items, last, after := [], "\\", "";
      } else {
        items, last, after := DoubleForm(text[2..]);
        items := [Escaped(text[1])] + items;
        QuotedFirst(items);
        assert text == ['\\', text[1]] + text[2..];
      }
    } else {
      items, last, after := DoubleForm(text[1..]);
      items := [Plain(text[0])] + items;
      QuotedFirst(items);
      assert text == [text[0]] + text[1..];
    }
  }

  lemma QuotedFirst(items: seq<Item>)
    requires items != []
    ensures Quoted(items) == Start(items[0]) + Quoted(items[1..])
  {
  }
}
