/** macro/kml.py: the text of a keyboard macro as a sequence of tokens, and printing it back. */
module KmlTokens {
  import opened Chars
  import opened Ordering
  import opened Options

  datatype Command = Tempo | Length | Rest | Octave

  /** What one step of the parser recognises. */
  datatype Token =
    | Nothing
    | Set(command: Command, value: nat)
    | EmptyNumber
    | Open(names: seq<string>)
    | Close
    | Escape(keycode: nat)
    | Special(name: string)
    | Note(c: char, digit: Option<nat>)

  datatype Item = Item(token: Token, length: nat)

  // ----- tables --------------------------------------------------------------------------------

  function Keycodes(): map<string, nat> { CharacterKeys() + NamedKeys() + ModifierKeys() }

  function CharacterKeys(): map<string, nat> {
    map[
      "A" := 4, "B" := 5, "C" := 6, "D" := 7, "E" := 8, "F" := 9, "G" := 10, "H" := 11,
      "I" := 12, "J" := 13, "K" := 14, "L" := 15, "M" := 16, "N" := 17, "O" := 18, "P" := 19,
      "Q" := 20, "R" := 21, "S" := 22, "T" := 23, "U" := 24, "V" := 25, "W" := 26, "X" := 27,
      "Y" := 28, "Z" := 29,
      "1" := 30, "2" := 31, "3" := 32, "4" := 33, "5" := 34,
      "6" := 35, "7" := 36, "8" := 37, "9" := 38, "0" := 39
    ]
  }

  function NamedKeys(): map<string, nat> {
    map[
      "Enter" := 40, "Esc" := 41, "Escape" := 41, "Backspace" := 42, "Tab" := 43,
      "Space" := 44, "Minus" := 45, "Equal" := 46,
      "F1" := 58, "F2" := 59, "F3" := 60, "F4" := 61, "F5" := 62, "F6" := 63,
      "F7" := 64, "F8" := 65, "F9" := 66, "F10" := 67, "F11" := 68, "F12" := 69,
      "Insert" := 73, "Delete" := 76, "Home" := 74, "End" := 77,
      "PageUp" := 75, "PageDown" := 78, "PgUp" := 75, "PgDn" := 78,
      "Up" := 82, "Down" := 81, "Left" := 80, "Right" := 79
    ]
  }

  function ModifierKeys(): map<string, nat> {
    map[
      "Ctrl" := 224, "LCtrl" := 224, "RCtrl" := 228,
      "Shift" := 225, "LShift" := 225, "RShift" := 229,
      "Alt" := 226, "LAlt" := 226, "RAlt" := 230,
      "Win" := 227, "LWin" := 227, "RWin" := 231,
      "GUI" := 227, "Command" := 227, "Cmd" := 227
    ]
  }

  function ModifierNames(): set<string> {
    {"Ctrl", "Shift", "Alt", "Win", "Command", "Cmd", "GUI",
     "LCtrl", "RCtrl", "LShift", "RShift", "LAlt", "RAlt", "LWin", "RWin"}
  }

  function ModifierBit(keycode: nat): bv8 {
    match keycode
    case 224 => 0x01
    case 225 => 0x02
    case 226 => 0x04
    case 227 => 0x08
    case 228 => 0x10
    case 229 => 0x20
    case 230 => 0x40
    case 231 => 0x80
    case _ => 0
  }

  function Keycode(name: string): Option<nat> {
    if name in Keycodes() then Some(Keycodes()[name]) else None
  }

  /** The one-character results of str.upper that name a key. */
  function UpperOf(c: char): char {
    if 'a' <= c <= 'z' then (c as int - 32) as char
    else if c == '\U{131}' then 'I'
    else if c == '\U{17F}' then 'S'
    else c
  }

  function NoteKey(c: char): Option<nat> { Keycode([UpperOf(c)]) }

  predicate IsGap(c: char) { c == ' ' || c == '\t' || c == '\n' }

  predicate IsJoin(c: char) { c == '+' || IsGap(c) }

  predicate IsDigit(c: char) { '0' <= c <= '9' }

  predicate IsAlpha(c: char) { 'A' <= c <= 'Z' || 'a' <= c <= 'z' }

  predicate IsAlnum(c: char) { IsAlpha(c) || IsDigit(c) }

  // ----- recognising -----------------------------------------------------------------------------

  /** How many leading characters belong to a class. */
  function Span(s: string, class_: char -> bool): (n: nat)
    ensures n <= |s| && (forall i | 0 <= i < n :: class_(s[i])) && (n < |s| ==> !class_(s[n]))
  {
    if s == [] || !class_(s[0]) then 0 else 1 + Span(s[1..], class_)
  }

  lemma {:induction false} SpanIs(s: string, n: nat, class_: char -> bool)
    requires n <= |s| && (forall i | 0 <= i < n :: class_(s[i])) && (n < |s| ==> !class_(s[n]))
    ensures Span(s, class_) == n
  {
  }

  function Number(digits: string): nat
    requires forall c | c in digits :: IsDigit(c)
  {
    if digits == [] then 0 else
      var last := digits[|digits| - 1];
      assert last in digits && IsDigit(last);
      assert '0' as int <= last as int;
      10 * Number(digits[..|digits| - 1]) + (last as int - '0' as int)
  }

  lemma {:induction false} NumberOfDecimal(n: nat)
    ensures Number(Decimal(n)) == n
  {
    var s := Decimal(n);
    assert s[..|s| - 1] == (if n < 10 then "" else Decimal(n / 10));
    if n >= 10 { NumberOfDecimal(n / 10); }
  }

  /** After the opening of a range: the modifier names, and where its content starts. */
  function Range(s: string): (r: (seq<string>, nat))
    ensures r.1 <= |s| && forall name | name in r.0 :: name in ModifierNames()
    decreases |s|
  {
    if s == [] || "\\]" <= s then ([], 0)
    else if IsGap(s[0]) then
      var r := Range(s[1..]);
      (r.0, 1 + r.1)
    else if IsAlpha(s[0]) then
      var k := Span(s, IsAlnum);
      if s[..k] in ModifierNames() then
        var g := Span(s[k..], IsJoin);
        var r := Range(s[k + g..]);
        ([s[..k]] + r.0, k + g + r.1)
      else ([], 0)
    else ([], 0)
  }

  /** A command letter with a value, with or without brackets. */
  function CommandItem(s: string, command: Command): (item: Item)
    requires |s| >= 2
    ensures 2 <= item.length <= |s|
  {
    if |s| > 2 && s[2] == '[' then
      var d := Span(s[3..], IsDigit);
      if 3 + d >= |s| || s[3 + d] != ']' then Item(Nothing, 2)
      else if d == 0 then Item(EmptyNumber, 4)
      else Item(Set(command, Number(s[3..3 + d])), 4 + d)
    else
      var d := Span(s[2..], IsDigit);
      if d == 0 then Item(Nothing, 2) else Item(Set(command, Number(s[2..2 + d])), 2 + d)
  }

  function EscapeItem(s: string): (item: Item)
    requires s != []
    ensures 1 <= item.length <= |s|
  {
    if |s| < 2 then Item(Nothing, 1)
    else match s[1]
      case 'T' => CommandItem(s, Tempo)
      case 'L' => CommandItem(s, Length)
      case 'R' => CommandItem(s, Rest)
      case 'O' => CommandItem(s, Octave)
      case '[' => var r := Range(s[2..]); Item(Open(r.0), 2 + r.1)
      case ']' => Item(Close, 2)
      case 'n' => Item(Escape(40), 2)
      case 't' => Item(Escape(43), 2)
      case 'b' => Item(Escape(42), 2)
      case 's' => Item(Escape(44), 2)
      case _ => Item(Nothing, 2)
  }

  predicate NotClosing(c: char) { c != ']' }

  function SpecialItem(s: string): (item: Item)
    requires s != []
    ensures 1 <= item.length <= |s|
  {
    var n := Span(s[1..], NotClosing);
    if 1 + n >= |s| then Item(Nothing, 1) else Item(Special(s[1..1 + n]), n + 2)
  }

  function CharacterItem(s: string): (item: Item)
    requires s != []
    ensures 1 <= item.length <= |s|
  {
    if NoteKey(s[0]) == None then Item(Nothing, 1)
    else if |s| > 1 && IsDigit(s[1]) then Item(Note(s[0], Some(s[1] as int - '0' as int)), 2)
    else Item(Note(s[0], None), 1)
  }

  function ItemAt(s: string): (item: Item)
    requires s != []
    ensures 1 <= item.length <= |s|
  {
    if IsGap(s[0]) then Item(Nothing, 1)
    else if s[0] == '\\' then EscapeItem(s)
    else if s[0] == '[' then SpecialItem(s)
    else CharacterItem(s)
  }

  function Tokens(s: string): seq<Token>
    decreases |s|
  {
    if s == [] then [] else
      var item := ItemAt(s);
      (if item.token == Nothing then [] else [item.token]) + Tokens(s[item.length..])
  }

  // ----- comment lines -----------------------------------------------------------------------------

  /** The length of the first line. */
  function FirstLine(s: string): (n: nat)
    ensures n <= |s| && (forall i | 0 <= i < n :: s[i] != '\n') && (n < |s| ==> s[n] == '\n')
  {
    if s == [] || s[0] == '\n' then 0 else 1 + FirstLine(s[1..])
  }

  /** str.split('\n') */
  function Split(s: string): (lines: seq<string>)
    ensures lines != [] && forall line | line in lines :: '\n' !in line
    decreases |s|
  {
    var n := FirstLine(s);
    if n == |s| then [s] else [s[..n]] + Split(s[n + 1..])
  }

  /** '\n'.join(lines) */
  function JoinLines(lines: seq<string>): string {
    if lines == [] then "" else if |lines| == 1 then lines[0] else lines[0] + "\n" + JoinLines(lines[1..])
  }

  /** The first visible character is a number sign. */
  predicate IsComment(line: string) {
    line != [] && (line[0] == '#' || (IsSpace(line[0]) && IsComment(line[1..])))
  }

  function WithoutComments(lines: seq<string>): seq<string> {
    if lines == [] then [] else
      (if IsComment(lines[0]) then [] else [lines[0]]) + WithoutComments(lines[1..])
  }

  /** The text the parser scans. */
  function Content(kml: string): string { JoinLines(WithoutComments(Split(kml))) }

  // ----- printing ------------------------------------------------------------------------------------

  /** How a token may be written: a value with or without brackets. */
  datatype Piece = Piece(token: Token, bracketed: bool)

  function Letter(command: Command): char {
    match command
    case Tempo => 'T'
    case Length => 'L'
    case Rest => 'R'
    case Octave => 'O'
  }

  function Names(names: seq<string>): string {
    if names == [] then "" else names[0] + "+" + Names(names[1..])
  }

  function Print(piece: Piece): string {
    match piece.token
    case Nothing => " "
    case Set(command, value) =>
      if piece.bracketed then ['\\', Letter(command), '['] + Decimal(value) + "]"
      else ['\\', Letter(command)] + Decimal(value) + " "
    case EmptyNumber => "\\T[]"
    case Open(names) => "\\[" + Names(names) + " "
    case Close => "\\]"
    case Escape(keycode) =>
      ['\\', if keycode == 40 then 'n' else if keycode == 42 then 'b' else if keycode == 43 then 't' else 's']
    case Special(name) => "[" + name + "]"
    case Note(c, None) => [c] + " "
    case Note(c, Some(digit)) => [c, ('0' as int + digit % 10) as char]
  }

  predicate Writable(token: Token) {
    match token
    case Nothing => false
    case Set(_, _) => true
    case EmptyNumber => true
    case Open(names) => forall name | name in names :: name in ModifierNames()
    case Close => true
    case Escape(keycode) => keycode == 40 || keycode == 42 || keycode == 43 || keycode == 44
    case Special(name) => ']' !in name && '\n' !in name
    case Note(c, digit) => NoteKey(c).Some? && (digit.Some? ==> digit.value < 10)
  }

  function PrintAll(pieces: seq<Piece>): string {
    if pieces == [] then "" else Print(pieces[0]) + PrintAll(pieces[1..])
  }

  function TokensOf(pieces: seq<Piece>): seq<Token> {
    seq(|pieces|, i requires 0 <= i < |pieces| => pieces[i].token)
  }

  /** What may follow a printed token. */
  predicate StartsWell(s: string) {
    s == "" || (!IsJoin(s[0]) && (IsAlpha(s[0]) ==> |s| >= 2 && !IsAlpha(s[1])))
  }

  lemma NameShapes()
    ensures forall name | name in ModifierNames() :: |name| >= 3 && forall c | c in name :: IsAlpha(c)
  {
  }

  lemma SpanOf(word: string, rest: string, class_: char -> bool)
    requires (forall c | c in word :: class_(c)) && (rest == "" || !class_(rest[0]))
    ensures Span(word + rest, class_) == |word|
  {
    var s := word + rest;
    assert forall i | 0 <= i < |word| :: s[i] == word[i];
    SpanIs(s, |word|, class_);
  }

  /** A range that starts with content has no modifiers. */
  lemma ContentHasNoNames(rest: string)
    requires StartsWell(rest)
    ensures Range(rest) == ([], 0)
  {
    hide ModifierNames;
    if rest != "" && IsAlpha(rest[0]) {
      NameShapes();
      var word := rest[..Span(rest, IsAlnum)];
      assert forall name | name in ModifierNames() :: name[1] in name && IsAlpha(name[1]);
      assert |word| >= 2 ==> word[1] == rest[1];
    }
  }

  lemma RangeGoesOn(s: string, name: string, g: nat, rest: string)
    requires s != "" && IsAlpha(s[0]) && Span(s, IsAlnum) == |name| && name == s[..|name|] && name in ModifierNames()
    requires Span(s[|name|..], IsJoin) == g && rest == s[|name| + g..]
    ensures Range(s) == ([name] + Range(rest).0, |name| + g + Range(rest).1)
  {
    hide ModifierNames, Span, IsJoin, IsAlnum;
    assert s[0] != "\\]"[0] && !IsGap(s[0]);
  }

  /** A modifier name, the g joining characters after it, and the rest of the range. */
  lemma NameFirst(name: string, tail: string, g: nat, rest: string)
    requires name in ModifierNames() && tail != "" && IsJoin(tail[0]) && Span(tail, IsJoin) == g && rest == tail[g..]
    ensures Range(name + tail) == ([name] + Range(rest).0, |name| + g + Range(rest).1)
  {
    hide *;
    NameSpan(name, tail);
    assert (name + tail)[..|name|] == name && (name + tail)[|name|..] == tail;
    RangeGoesOn(name + tail, name, g, rest);
  }

  lemma NameSpan(name: string, rest: string)
    requires name in ModifierNames() && rest != "" && IsJoin(rest[0])
    ensures Span(name + rest, IsAlnum) == |name| && IsAlpha((name + rest)[0])
  {
    hide *;
    NameCharacters(name);
    JoinEndsName(rest[0]);
    SpanOf(name, rest, IsAlnum);
  }

  lemma NameCharacters(name: string)
    requires name in ModifierNames()
    ensures name != "" && IsAlpha(name[0]) && forall c | c in name :: IsAlnum(c)
  {
  }

  lemma JoinEndsName(c: char)
    requires IsJoin(c)
    ensures !IsAlnum(c)
  {
  }

  lemma GapFirst(rest: string)
    ensures Range(" " + rest) == (Range(rest).0, 1 + Range(rest).1)
  {
    var s := " " + rest;
    assert s[0] == ' ' && s[1..] == rest;
  }

  lemma {:induction false} PrintedNames(names: seq<string>, rest: string)
    requires forall name | name in names :: name in ModifierNames()
    requires StartsWell(rest)
    ensures Range(Names(names) + " " + rest) == (names, |Names(names)| + 1)
  {
    hide ModifierNames, Range;
    ContentHasNoNames(rest);
    var s := Names(names) + " " + rest;
    if names == [] {
      assert s == " " + rest;
      GapFirst(rest);
    } else {
      var more := Names(names[1..]) + " " + rest;
      if |names| == 1 {
        assert names == [names[0]] + [] && names[1..] == [];
        assert s == names[0] + ("+ " + rest) && ("+ " + rest)[2..] == rest;
        SpanOf("+ ", rest, IsJoin);
        NameFirst(names[0], "+ " + rest, 2, rest);
      } else {
        assert s == names[0] + ("+" + more) && ("+" + more)[1..] == more;
        NameShapes();
        assert names[1] in names && names[1][0] in names[1] && more[0] == names[1][0];
        PrintedNames(names[1..], rest);
        SpanOf("+", more, IsJoin);
        NameFirst(names[0], "+" + more, 1, more);
        assert names == [names[0]] + names[1..];
      }
    }
  }

  lemma PrintedPlain(command: Command, value: nat, rest: string)
    ensures var s := ['\\', Letter(command)] + Decimal(value) + " " + rest;
      && EscapeItem(s) == Item(Set(command, value), 2 + |Decimal(value)|)
      && s[2 + |Decimal(value)|..] == " " + rest
  {
    hide Decimal, Number;
    var digits := Decimal(value);
    var s := ['\\', Letter(command)] + digits + " " + rest;
    NumberOfDecimal(value);
    assert s[2] == digits[0] && digits[0] in digits;
    assert s[2..] == digits + (" " + rest);
    SpanOf(digits, " " + rest, IsDigit);
    assert s[2..2 + |digits|] == digits;
  }

  lemma PrintedBrackets(command: Command, value: nat, rest: string)
    ensures var s := ['\\', Letter(command), '['] + Decimal(value) + "]" + rest;
      && EscapeItem(s) == Item(Set(command, value), 4 + |Decimal(value)|)
      && s[4 + |Decimal(value)|..] == rest
  {
    hide Decimal, Number;
    var digits := Decimal(value);
    var s := ['\\', Letter(command), '['] + digits + "]" + rest;
    NumberOfDecimal(value);
    assert s[3..] == digits + ("]" + rest);
    SpanOf(digits, "]" + rest, IsDigit);
    assert s[3..3 + |digits|] == digits && s[3 + |digits|] == ']';
  }

  lemma PrintedValue(command: Command, value: nat, bracketed: bool, rest: string)
    ensures Tokens(Print(Piece(Set(command, value), bracketed)) + rest) == [Set(command, value)] + Tokens(rest)
  {
    hide EscapeItem, Decimal, SpecialItem, CharacterItem;
    var s := Print(Piece(Set(command, value), bracketed)) + rest;
    if bracketed {
      PrintedBrackets(command, value, rest);
    } else {
      PrintedPlain(command, value, rest);
      assert (" " + rest)[1..] == rest;
    }
  }

  lemma PrintedSpecial(name: string, bracketed: bool, rest: string)
    requires ']' !in name
    ensures var s := Print(Piece(Special(name), bracketed)) + rest;
      ItemAt(s) == Item(Special(name), |name| + 2) && s[|name| + 2..] == rest
  {
    var s := Print(Piece(Special(name), bracketed)) + rest;
    assert s[1..] == name + ("]" + rest);
    SpanOf(name, "]" + rest, NotClosing);
    assert s[1..1 + |name|] == name;
  }

  lemma PrintedRange(names: seq<string>, bracketed: bool, rest: string)
    requires (forall name | name in names :: name in ModifierNames()) && StartsWell(rest)
    ensures var s := Print(Piece(Open(names), bracketed)) + rest;
      ItemAt(s) == Item(Open(names), |Names(names)| + 3) && s[|Names(names)| + 3..] == rest
  {
    hide ModifierNames, Names, Range, CommandItem, Span, SpecialItem, CharacterItem;
    var s := Print(Piece(Open(names), bracketed)) + rest;
    assert s[0] == '\\' && s[1] == '[';
    assert s[2..] == Names(names) + " " + rest;
    PrintedNames(names, rest);
  }

  lemma LongNames()
    ensures forall name | name in NamedKeys() :: |name| > 1
  {
  }

  lemma LongModifiers()
    ensures forall name | name in ModifierKeys() :: |name| > 1
  {
  }

  lemma CharacterNames()
    ensures forall name | name in CharacterKeys() :: |name| == 1 && IsAlnum(name[0])
  {
  }

  lemma NoteCharacters(c: char)
    requires NoteKey(c).Some?
    ensures IsAlnum(c) || c == '\U{131}' || c == '\U{17F}'
  {
    hide CharacterKeys, NamedKeys, ModifierKeys;
    assert [UpperOf(c)][0] == UpperOf(c);
    LongNames();
    LongModifiers();
    CharacterNames();
  }

  lemma PrintedNote(c: char, digit: Option<nat>, bracketed: bool, rest: string)
    requires NoteKey(c).Some? && (digit.Some? ==> digit.value < 10)
    ensures Tokens(Print(Piece(Note(c, digit), bracketed)) + rest) == [Note(c, digit)] + Tokens(rest)
  {
    hide NoteKey, EscapeItem, SpecialItem, Decimal, Names;
    NoteCharacters(c);
    var s := Print(Piece(Note(c, digit), bracketed)) + rest;
    assert !IsGap(c) && c != '\\' && c != '[';
    match digit
    case None =>
      assert s[1..] == " " + rest && (" " + rest)[1..] == rest;
    case Some(d) =>
      assert s[2..] == rest;
  }

  lemma TokenFirst(s: string, token: Token, n: nat, rest: string)
    requires s != "" && ItemAt(s) == Item(token, n) && token != Nothing && s[n..] == rest
    ensures Tokens(s) == [token] + Tokens(rest)
  {
  }

  lemma PrintedPair(token: Token, s: string, rest: string)
    requires (token == EmptyNumber && s == "\\T[]") || (token == Close && s == "\\]")
      || (token.Escape? && Writable(token) && s == Print(Piece(token, false)))
    ensures Tokens(s + rest) == [token] + Tokens(rest)
  {
    assert (s + rest)[|s|..] == rest;
    if token == EmptyNumber {
      assert (s + rest)[3..] == "" + ("]" + rest);
      SpanOf("", "]" + rest, IsDigit);
    }
    hide Tokens;
    TokenFirst(s + rest, token, |s|, rest);
  }

  /** Scanning a printed token gives the token back, and then what follows it. */
  lemma PrintedToken(piece: Piece, rest: string)
    requires Writable(piece.token) && StartsWell(rest)
    ensures Tokens(Print(piece) + rest) == [piece.token] + Tokens(rest)
  {
    hide Range, Tokens, ModifierNames, NoteKey, ItemAt;
    var s := Print(piece) + rest;
    match piece.token
    case Set(command, value) => PrintedValue(command, value, piece.bracketed, rest);
    case EmptyNumber => PrintedPair(EmptyNumber, Print(piece), rest);
    case Open(names) =>
      PrintedRange(names, piece.bracketed, rest);
      TokenFirst(s, piece.token, |Names(names)| + 3, rest);
    case Close => PrintedPair(Close, Print(piece), rest);
    case Escape(keycode) => PrintedPair(piece.token, Print(piece), rest);
    case Special(name) =>
      PrintedSpecial(name, piece.bracketed, rest);
      TokenFirst(s, piece.token, |name| + 2, rest);
    case Note(c, digit) => PrintedNote(c, digit, piece.bracketed, rest);
  }

  lemma PrintedStart(piece: Piece)
    requires Writable(piece.token)
    ensures Print(piece) != "" && (forall rest :: StartsWell(Print(piece) + rest))
      && !IsSpace(Print(piece)[0]) && Print(piece)[0] != '#'
    ensures '\n' !in Print(piece)
  {
    hide Range, CommandItem, SpecialItem, CharacterItem, ModifierNames, NoteKey;
    match piece.token
    case Set(command, value) =>
    case Open(names) => NoLineFeedInNames(names);
    case Note(c, digit) => NoteCharacters(c);
    case _ =>
  }

  lemma {:induction false} NoLineFeedInNames(names: seq<string>)
    requires forall name | name in names :: name in ModifierNames()
    ensures '\n' !in Names(names)
  {
    hide ModifierNames;
    NameShapes();
    if names != [] {
      assert '\n' !in names[0];
      NoLineFeedInNames(names[1..]);
    }
  }

  lemma {:induction false} PrintedTokens(pieces: seq<Piece>)
    requires forall piece | piece in pieces :: Writable(piece.token)
    ensures Tokens(PrintAll(pieces)) == TokensOf(pieces)
    ensures StartsWell(PrintAll(pieces)) && '\n' !in PrintAll(pieces)
    ensures PrintAll(pieces) != "" ==> !IsSpace(PrintAll(pieces)[0]) && PrintAll(pieces)[0] != '#'
  {
    hide Print, Writable, StartsWell, IsSpace;
    if pieces == [] {
      EmptyStartsWell();
    } else {
      PrintedTokens(pieces[1..]);
      PrintedStart(pieces[0]);
      PrintedToken(pieces[0], PrintAll(pieces[1..]));
    }
  }

  lemma EmptyStartsWell()
    ensures StartsWell("")
  {
  }

  /** Every written sequence of tokens is read back, and is not taken for a comment. */
  lemma PrintedProgram(pieces: seq<Piece>)
    requires forall piece | piece in pieces :: Writable(piece.token)
    ensures Tokens(Content(PrintAll(pieces))) == TokensOf(pieces)
  {
    hide Tokens, IsSpace, Writable, Print;
    PrintedTokens(pieces);
    var text := PrintAll(pieces);
    assert FirstLine(text) == |text|;
    assert Split(text) == [text];
    assert !IsComment(text);
    assert WithoutComments([text]) == [text];
  }
}
