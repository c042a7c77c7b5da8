/** How a macro text is cut into tokens, form by form: what each beginning of a text stands for,
    whatever follows. */
module KmlForms {
  import opened Chars
  import opened Options
  import opened KmlTokens

  // ----- characters and numbers -----------------------------------------------------------------------

  lemma CharactersAre()
    ensures forall c :: IsGap(c) <==> c in " \t\n"
    ensures forall c :: IsJoin(c) <==> c in "+ \t\n"
    ensures forall c :: IsDigit(c) <==> c in DIGITS
    ensures forall c :: IsAlpha(c) <==> c in CAPITALS + SMALL
    ensures forall c :: IsAlnum(c) <==> c in ALPHANUMERIC
  {
    hide CAPITALS, SMALL, DIGITS, ALPHANUMERIC;
    forall c
      ensures IsGap(c) <==> c in " \t\n"
      ensures IsJoin(c) <==> c in "+ \t\n"
      ensures IsDigit(c) <==> c in DIGITS
      ensures IsAlpha(c) <==> c in CAPITALS + SMALL
      ensures IsAlnum(c) <==> c in ALPHANUMERIC
    {
      CapitalIs(c);
      SmallIs(c);
      DigitIs(c);
      AlphanumericIs(c);
    }
  }

  ghost predicate AreDigits(s: string) { forall c | c in s :: IsDigit(c) }

  /** Decimal, and leading zeros do not matter. */
  lemma NumberIs(digits: string, d: nat)
    requires AreDigits(digits) && d < 10
    ensures AreDigits(digits + ["0123456789"[d]])
    ensures Number("") == 0 && Number(digits + ["0123456789"[d]]) == 10 * Number(digits) + d
  {
    var all := digits + ["0123456789"[d]];
    assert all[..|all| - 1] == digits && IsDigit("0123456789"[d]);
  }

  // ----- between tokens -------------------------------------------------------------------------------

  lemma Passed(s: string, n: nat, rest: string)
    requires s != "" && ItemAt(s) == Item(Nothing, n) && s[n..] == rest
    ensures Tokens(s) == Tokens(rest)
  {
  }

  lemma GapPassed(c: char, rest: string)
    requires c in " \t\n"
    ensures Tokens([c] + rest) == Tokens(rest) && Tokens("") == []
  {
    assert ([c] + rest)[1..] == rest;
  }

  // ----- characters -----------------------------------------------------------------------------------

  /** A key's character with a digit is a note of that length, without one of the set length; the
      digit of a character without a key is read by itself. */
  lemma CharacterForms(c: char, d: nat, rest: string)
    requires c !in " \t\n\\[" && d < 10
    ensures NoteKey(c).Some? ==> Tokens([c, "0123456789"[d]] + rest) == [Note(c, Some(d))] + Tokens(rest)
    ensures NoteKey(c).Some? && (rest == "" || rest[0] !in DIGITS) ==>
      Tokens([c] + rest) == [Note(c, None)] + Tokens(rest)
    ensures NoteKey(c).None? ==> Tokens([c] + rest) == Tokens(rest)
  {
    hide *;
    CharactersAre();
    var digit := "0123456789"[d];
    DigitIsCharacter(d);
    var long, short := [c, digit] + rest, [c] + rest;
    assert long[2..] == rest && short[1..] == rest;
    if NoteKey(c).Some? {
      WithDigit(c, digit, rest);
      TokenFirst(long, Note(c, Some(d)), 2, rest);
      if rest == "" || rest[0] !in DIGITS {
        WithoutDigit(c, rest);
        TokenFirst(short, Note(c, None), 1, rest);
      }
    } else {
      WithoutKey(c, rest);
      Passed(short, 1, rest);
    }
  }

  lemma DigitIsCharacter(d: nat)
    requires d < 10
    ensures IsDigit("0123456789"[d]) && "0123456789"[d] as int - '0' as int == d
  {
  }

  lemma WithDigit(c: char, digit: char, rest: string)
    requires c !in " \t\n\\[" && IsDigit(digit) && NoteKey(c).Some?
    ensures ItemAt([c, digit] + rest) == Item(Note(c, Some(digit as int - '0' as int)), 2)
  {
    hide NoteKey, EscapeItem, SpecialItem;
  }

  lemma WithoutDigit(c: char, rest: string)
    requires c !in " \t\n\\[" && NoteKey(c).Some? && (rest == "" || !IsDigit(rest[0]))
    ensures ItemAt([c] + rest) == Item(Note(c, None), 1)
  {
    hide NoteKey, EscapeItem, SpecialItem;
    assert rest != "" ==> ([c] + rest)[1] == rest[0];
  }

  lemma WithoutKey(c: char, rest: string)
    requires c !in " \t\n\\[" && NoteKey(c).None?
    ensures ItemAt([c] + rest) == Item(Nothing, 1)
  {
    hide NoteKey, EscapeItem, SpecialItem;
  }

  // ----- keys in brackets -----------------------------------------------------------------------------

  lemma KeyForms(name: string, rest: string)
    requires ']' !in name
    ensures Tokens("[" + name + "]" + rest) == [Special(name)] + Tokens(rest)
    ensures Tokens("[" + name) == Tokens(name)
  {
    PrintedSpecial(name, false, rest);
    hide Tokens, EscapeItem, CharacterItem;
    TokenFirst("[" + name + "]" + rest, Special(name), |name| + 2, rest);
    var open := "[" + name;
    assert open[1..] == name;
    SpanIs(name, |name|, NotClosing);
    Passed(open, 1, name);
  }

  // ----- escapes ----------------------------------------------------------------------------------------

  /** The escapes of one character; what is none is passed over with its backslash. */
  lemma EscapeForms(c: char, rest: string)
    ensures Tokens("\\") == []
    ensures Tokens("\\n" + rest) == [Escape(40)] + Tokens(rest)
    ensures Tokens("\\t" + rest) == [Escape(43)] + Tokens(rest)
    ensures Tokens("\\b" + rest) == [Escape(42)] + Tokens(rest)
    ensures Tokens("\\s" + rest) == [Escape(44)] + Tokens(rest)
    ensures Tokens("\\]" + rest) == [Close] + Tokens(rest)
    ensures c !in "TLRO[]ntbs" ==> Tokens(['\\', c] + rest) == Tokens(rest)
  {
    PrintedPair(Escape(40), "\\n", rest);
    PrintedPair(Escape(43), "\\t", rest);
    PrintedPair(Escape(42), "\\b", rest);
    PrintedPair(Escape(44), "\\s", rest);
    PrintedPair(Close, "\\]", rest);
    hide *;
    NoEscape(c, rest);
    Passed("\\", 1, "");
    GapPassed(' ', "");
    if c !in "TLRO[]ntbs" {
      assert (['\\', c] + rest)[2..] == rest;
      Passed(['\\', c] + rest, 2, rest);
    }
  }

  lemma NoEscape(c: char, rest: string)
    ensures ItemAt("\\") == Item(Nothing, 1)
    ensures c !in "TLRO[]ntbs" ==> ItemAt(['\\', c] + rest) == Item(Nothing, 2)
  {
    hide CommandItem, Range, SpecialItem, CharacterItem;
  }

  /** A command letter with digits, with digits in brackets, or alone. */
  lemma CommandForms(command: Command, digits: string, rest: string)
    requires AreDigits(digits) && (rest == "" || !IsDigit(rest[0]))
    ensures digits != "" ==>
      Tokens(['\\', Letter(command)] + digits + rest) == [Set(command, Number(digits))] + Tokens(rest)
    ensures digits != "" ==>
      Tokens(['\\', Letter(command), '['] + digits + "]" + rest) == [Set(command, Number(digits))] + Tokens(rest)
    ensures Tokens(['\\', Letter(command)] + "[]" + rest) == [EmptyNumber] + Tokens(rest)
    ensures rest == "" || rest[0] != '[' ==> Tokens(['\\', Letter(command)] + rest) == Tokens(rest)
    ensures rest == "" || rest[0] != ']' ==>
      Tokens(['\\', Letter(command), '['] + digits + rest) == Tokens("[" + digits + rest)
  {
    hide *;
    if digits != "" {
      PlainForm(command, digits, rest);
      BracketForm(command, digits, rest);
    }
    EmptyForm(command, rest);
    if rest == "" || rest[0] != '[' {
      BareCommand(command, rest);
      Unscanned(command, rest);
    }
    if rest == "" || rest[0] != ']' {
      OpenForm(command, digits, rest);
    }
  }

  lemma PlainForm(command: Command, digits: string, rest: string)
    requires AreDigits(digits) && digits != "" && (rest == "" || !IsDigit(rest[0]))
    ensures Tokens(['\\', Letter(command)] + digits + rest) == [Set(command, Number(digits))] + Tokens(rest)
  {
    hide Tokens, CommandItem, Number, Letter, IsDigit;
    PlainCommand(command, digits, rest);
    Scanned(command, digits + rest, Set(command, Number(digits)), |digits|, rest);
    assert ['\\', Letter(command)] + digits + rest == ['\\', Letter(command)] + (digits + rest);
  }

  lemma BracketForm(command: Command, digits: string, rest: string)
    requires AreDigits(digits) && digits != ""
    ensures Tokens(['\\', Letter(command), '['] + digits + "]" + rest) == [Set(command, Number(digits))] + Tokens(rest)
  {
    hide Tokens, CommandItem, Number, Letter, IsDigit;
    BracketCommand(command, digits, rest);
    Scanned(command, "[" + digits + "]" + rest, Set(command, Number(digits)), 2 + |digits|, rest);
    assert ['\\', Letter(command), '['] + digits + "]" + rest
      == ['\\', Letter(command)] + ("[" + digits + "]" + rest);
  }

  lemma EmptyForm(command: Command, rest: string)
    ensures Tokens(['\\', Letter(command)] + "[]" + rest) == [EmptyNumber] + Tokens(rest)
  {
    hide *;
    BareCommand(command, rest);
    Scanned(command, "[]" + rest, EmptyNumber, 2, rest);
    assert ['\\', Letter(command)] + "[]" + rest == ['\\', Letter(command)] + ("[]" + rest);
  }

  lemma OpenForm(command: Command, digits: string, rest: string)
    requires AreDigits(digits) && (rest == "" || (!IsDigit(rest[0]) && rest[0] != ']'))
    ensures Tokens(['\\', Letter(command), '['] + digits + rest) == Tokens("[" + digits + rest)
  {
    hide *;
    OpenCommand(command, digits, rest);
    Unscanned(command, "[" + digits + rest);
    assert ['\\', Letter(command), '['] + digits + rest == ['\\', Letter(command)] + ("[" + digits + rest);
  }

  lemma PlainCommand(command: Command, digits: string, rest: string)
    requires AreDigits(digits) && digits != "" && (rest == "" || !IsDigit(rest[0]))
    ensures CommandItem(['\\', Letter(command)] + (digits + rest), command)
      == Item(Set(command, Number(digits)), 2 + |digits|)
  {
    hide Number, CommandItem, IsDigit, Span;
    var s := ['\\', Letter(command)] + (digits + rest);
    SpanOf(digits, rest, IsDigit);
    Placed(['\\', Letter(command)], digits, rest);
    assert s[2] == s[2..2 + |digits|][0] == digits[0] && digits[0] in digits;
    NoDigit(digits, rest);
    WithoutBrackets(s, command, digits);
  }

  lemma Placed(start: string, digits: string, rest: string)
    ensures var s := start + (digits + rest);
      && |s| >= |start| + |digits| && s[|start|..] == digits + rest && s[|start|..|start| + |digits|] == digits
      && (rest != "" ==> s[|start| + |digits|] == rest[0])
  {
  }

  lemma WithoutBrackets(s: string, command: Command, digits: string)
    requires AreDigits(digits) && digits != "" && 2 + |digits| <= |s| && s[2] != '['
    requires Span(s[2..], IsDigit) == |digits| && s[2..2 + |digits|] == digits
    ensures CommandItem(s, command) == Item(Set(command, Number(digits)), 2 + |digits|)
  {
    hide Span, Number;
  }

  lemma BracketCommand(command: Command, digits: string, rest: string)
    requires AreDigits(digits) && digits != ""
    ensures CommandItem(['\\', Letter(command)] + ("[" + digits + "]" + rest), command)
      == Item(Set(command, Number(digits)), 4 + |digits|)
  {
    hide Number, CommandItem, IsDigit, Span;
    var start := ['\\', Letter(command), '['];
    var s := start + (digits + ("]" + rest));
    Bracketed(Letter(command), digits, rest);
    Placed(start, digits, "]" + rest);
    NoDigit(digits, "]" + rest);
    assert ("]" + rest)[0] == ']' && s[2] == start[2];
    SpanOf(digits, "]" + rest, IsDigit);
    InBrackets(s, command, digits);
  }

  lemma Bracketed(letter: char, digits: string, rest: string)
    ensures ['\\', letter, '['] + (digits + ("]" + rest)) == ['\\', letter] + ("[" + digits + "]" + rest)
  {
  }

  lemma NoDigit(digits: string, after: string)
    ensures !IsDigit(']') && !IsDigit('[') && (AreDigits(digits) ==> forall c | c in digits :: IsDigit(c))
  {
  }

  lemma InBrackets(s: string, command: Command, digits: string)
    requires AreDigits(digits) && digits != "" && 3 + |digits| < |s| && s[2] == '[' && s[3..3 + |digits|] == digits
    requires Span(s[3..], IsDigit) == |digits| && s[3 + |digits|] == ']'
    ensures CommandItem(s, command) == Item(Set(command, Number(digits)), 4 + |digits|)
  {
    hide Span, Number;
  }

  lemma BareCommand(command: Command, rest: string)
    ensures CommandItem(['\\', Letter(command)] + ("[]" + rest), command) == Item(EmptyNumber, 4)
    ensures (rest == "" || (!IsDigit(rest[0]) && rest[0] != '[')) ==>
      CommandItem(['\\', Letter(command)] + rest, command) == Item(Nothing, 2)
  {
    var s, t := ['\\', Letter(command)] + ("[]" + rest), ['\\', Letter(command)] + rest;
    assert s[2] == '[' && s[3] == ']' && s[3..] == "" + ("]" + rest);
    SpanOf("", "]" + rest, IsDigit);
    assert t[2..] == rest && (rest != "" ==> t[2] == rest[0]);
  }

  lemma OpenCommand(command: Command, digits: string, rest: string)
    requires AreDigits(digits) && (rest == "" || (!IsDigit(rest[0]) && rest[0] != ']'))
    ensures CommandItem(['\\', Letter(command)] + ("[" + digits + rest), command) == Item(Nothing, 2)
  {
    var s := ['\\', Letter(command)] + ("[" + digits + rest);
    assert s[2] == '[' && s[3..] == digits + rest;
    SpanOf(digits, rest, IsDigit);
    assert rest != "" ==> s[3 + |digits|] == rest[0];
  }

  lemma Scanned(command: Command, after: string, token: Token, n: nat, rest: string)
    requires CommandItem(['\\', Letter(command)] + after, command) == Item(token, 2 + n) ==> token != Nothing
    requires n <= |after| && after[n..] == rest
    ensures CommandItem(['\\', Letter(command)] + after, command) == Item(token, 2 + n) ==>
      Tokens(['\\', Letter(command)] + after) == [token] + Tokens(rest)
  {
    hide Tokens, CommandItem, Range, SpecialItem, CharacterItem;
    var s := ['\\', Letter(command)] + after;
    assert s[2 + n..] == rest;
    if CommandItem(s, command) == Item(token, 2 + n) {
      TokenFirst(s, token, 2 + n, rest);
    }
  }

  lemma Unscanned(command: Command, after: string)
    requires CommandItem(['\\', Letter(command)] + after, command) == Item(Nothing, 2)
    ensures Tokens(['\\', Letter(command)] + after) == Tokens(after)
  {
    hide Tokens, CommandItem, Range, SpecialItem, CharacterItem;
    var s := ['\\', Letter(command)] + after;
    assert s[2..] == after;
    Passed(s, 2, after);
  }

  lemma LettersAre()
    ensures Letter(Tempo) == 'T' && Letter(Length) == 'L' && Letter(Rest) == 'R' && Letter(Octave) == 'O'
  {
  }

  // ----- ranges -----------------------------------------------------------------------------------------

  /** A range opens with its modifier names, and what comes after them is read on. */
  lemma RangeForm(after: string)
    ensures Tokens("\\[" + after) == [Open(Range(after).0)] + Tokens(after[Range(after).1..])
  {
    hide Tokens, Range, SpecialItem, CharacterItem, CommandItem;
    var s := "\\[" + after;
    assert s[2..] == after;
    TokenFirst(s, Open(Range(after).0), 2 + Range(after).1, after[Range(after).1..]);
  }

  /** The names: gaps are skipped; the end of the range ends the list, and so does any character
      that is no letter. */
  lemma RangeForms(c: char, rest: string)
    ensures Range("") == ([], 0) && Range("\\]" + rest) == ([], 0)
    ensures c in " \t\n" ==> Range([c] + rest) == (Range(rest).0, 1 + Range(rest).1)
    ensures c !in CAPITALS + SMALL && c !in " \t\n" ==> Range([c] + rest) == ([], 0)
  {
    hide ModifierNames, CAPITALS, SMALL, DIGITS, ALPHANUMERIC, Span;
    CharactersAre();
    assert ("\\]" + rest)[..2] == "\\]";
    assert ([c] + rest)[1..] == rest && ([c] + rest)[0] == c;
  }

  /** Gaps and plus signs, all of them, that end a word. */
  ghost predicate IsBetween(joins: string, rest: string) {
    && (forall j | j in joins :: j in "+ \t\n") && (rest == "" || rest[0] !in "+ \t\n")
    && (joins != "" || rest == "" || rest[0] !in ALPHANUMERIC)
  }

  /** A letter and then letters and digits. */
  ghost predicate IsWord(word: string) {
    word != "" && word[0] in CAPITALS + SMALL && forall c | c in word :: c in ALPHANUMERIC
  }

  /** A modifier name counts, with the gaps and plus signs after it. */
  lemma NameForm(word: string, joins: string, rest: string)
    requires IsWord(word) && word in ModifierNames() && IsBetween(joins, rest)
    ensures Range(word + joins + rest) == ([word] + Range(rest).0, |word| + |joins| + Range(rest).1)
  {
    hide *;
    WordEnds(word, joins, rest);
    Parts(word, joins + rest, joins, rest);
    NamedRange(word + joins + rest, joins + rest, word, |joins|, rest);
  }

  lemma NamedRange(s: string, tail: string, name: string, g: nat, rest: string)
    requires s != "" && IsAlpha(s[0]) && Span(s, IsAlnum) == |name| && name == s[..|name|] && name in ModifierNames()
    requires s[|name|..] == tail && Span(tail, IsJoin) == g && rest == s[|name| + g..]
    ensures Range(s) == ([name] + Range(rest).0, |name| + g + Range(rest).1)
  {
    hide *;
    RangeGoesOn(s, name, g, rest);
  }

  lemma Parts(word: string, tail: string, joins: string, rest: string)
    requires word != "" && tail == joins + rest
    ensures word + joins + rest == word + tail
    ensures var s := word + joins + rest;
      s != "" && s[0] == word[0] && s[..|word|] == word && s[|word|..] == tail && s[|word| + |joins|..] == rest
  {
  }

  lemma WordEnds(word: string, joins: string, rest: string)
    requires IsWord(word) && IsBetween(joins, rest)
    ensures Span(word + (joins + rest), IsAlnum) == |word| && Span(joins + rest, IsJoin) == |joins|
    ensures word != "" && IsAlpha(word[0])
  {
    hide *;
    var tail := joins + rest;
    WordsAre(word, rest);
    BetweenIs(joins, rest);
    assert if joins == "" then tail == rest else tail[0] == joins[0];
    SpanOf(word, tail, IsAlnum);
    SpanOf(joins, rest, IsJoin);
  }

  /** Any other word ends the list. */
  lemma OtherWord(word: string, rest: string)
    requires IsWord(word) && word !in ModifierNames() && (rest == "" || rest[0] !in ALPHANUMERIC)
    ensures Range(word + rest) == ([], 0)
  {
    hide *;
    WordsAre(word, rest);
    SpanOf(word, rest, IsAlnum);
    NoName(word, rest);
  }

  lemma WordsAre(word: string, rest: string)
    requires IsWord(word)
    ensures word != "" && IsAlpha(word[0]) && forall c | c in word :: IsAlnum(c)
    ensures rest != "" ==> (IsAlnum(rest[0]) <==> rest[0] in ALPHANUMERIC)
  {
    hide CAPITALS, SMALL, DIGITS, ALPHANUMERIC;
    CharactersAre();
  }

  lemma BetweenIs(joins: string, rest: string)
    requires IsBetween(joins, rest)
    ensures (forall j | j in joins :: IsJoin(j)) && (rest == "" || !IsJoin(rest[0]))
    ensures if joins == "" then rest == "" || !IsAlnum(rest[0]) else !IsAlnum(joins[0])
  {
    hide CAPITALS, SMALL, DIGITS, ALPHANUMERIC;
    CharactersAre();
    if joins != "" {
      assert joins[0] in joins;
      JoinEndsName(joins[0]);
    }
  }

  lemma NoName(word: string, rest: string)
    requires word != "" && IsAlpha(word[0]) && Span(word + rest, IsAlnum) == |word| && word !in ModifierNames()
    ensures Range(word + rest) == ([], 0)
  {
    hide ModifierNames, Span;
    var s := word + rest;
    assert s[..|word|] == word && s[0] == word[0];
  }

  // ----- comment lines --------------------------------------------------------------------------------

  /** A line is a comment if its first character that is no white space is a number sign. */
  lemma {:induction false} CommentLines(spaces: string, c: char, rest: string)
    requires (forall s | s in spaces :: IsSpace(s)) && !IsSpace(c)
    ensures !IsComment(spaces) && (IsComment(spaces + [c] + rest) <==> c == '#')
  {
    var line := spaces + [c] + rest;
    if spaces == "" {
      assert line[0] == c;
    } else {
      assert spaces[0] in spaces && line[0] == spaces[0];
      assert line[1..] == spaces[1..] + [c] + rest;
      CommentLines(spaces[1..], c, rest);
      NoCommentInSpaces(spaces);
    }
  }

  lemma {:induction false} NoCommentInSpaces(spaces: string)
    requires forall s | s in spaces :: IsSpace(s)
    ensures !IsComment(spaces)
  {
    if spaces != "" {
      assert spaces[0] in spaces && !IsSpace('#');
      NoCommentInSpaces(spaces[1..]);
    }
  }

  /** Comment lines are left out with their line feeds, the other lines are kept as they are. */
  lemma ContentForms(line: string, rest: string)
    requires '\n' !in line
    ensures Content(line) == if IsComment(line) then "" else line
    ensures IsComment(line) ==> Content(line + "\n" + rest) == Content(rest)
    ensures !IsComment(line) ==> (
      Content(line + "\n" + rest) == if AllComments(rest) then line else line + "\n" + Content(rest))
  {
    hide IsComment, Split, WithoutComments, JoinLines;
    SplitForms(line, rest);
    NothingKept(Split(rest));
    KeptFirst(line, Split(rest));
    KeptFirst(line, []);
    NothingKept([]);
    assert [line] + [] == [line];
    JoinFirst(line, []);
    JoinFirst(line, WithoutComments(Split(rest)));
    assert AllComments(rest) <==> WithoutComments(Split(rest)) == [];
    assert [] + WithoutComments(Split(rest)) == WithoutComments(Split(rest));
  }

  lemma JoinFirst(line: string, lines: seq<string>)
    ensures JoinLines([]) == ""
    ensures JoinLines([line] + lines) == if lines == [] then line else line + "\n" + JoinLines(lines)
  {
    assert ([line] + lines)[1..] == lines;
  }

  lemma KeptFirst(line: string, lines: seq<string>)
    ensures WithoutComments([line] + lines)
      == (if IsComment(line) then [] else [line]) + WithoutComments(lines)
  {
    hide IsComment;
    assert ([line] + lines)[1..] == lines;
  }

  /** Every line is a comment. */
  predicate AllComments(text: string) { forall line | line in Split(text) :: IsComment(line) }

  lemma SplitForms(line: string, rest: string)
    requires '\n' !in line
    ensures Split(line) == [line] && Split(line + "\n" + rest) == [line] + Split(rest)
  {
    LineEnds(line, "");
    LineEnds(line, "\n" + rest);
    var text := line + "\n" + rest;
    assert line + "" == line;
    assert text == line + ("\n" + rest) && text[..|line|] == line && text[|line| + 1..] == rest;
  }

  lemma LineEnds(line: string, rest: string)
    requires '\n' !in line && (rest == "" || rest[0] == '\n')
    ensures FirstLine(line + rest) == |line|
  {
    var s := line + rest;
    assert rest != "" ==> s[|line|] == '\n';
    assert forall i | 0 <= i < |line| :: s[i] == line[i] && line[i] in line;
    LineLengthIs(s, |line|);
  }

  lemma LineLengthIs(s: string, n: nat)
    requires n <= |s| && (forall i | 0 <= i < n :: s[i] != '\n') && (n < |s| ==> s[n] == '\n')
    ensures FirstLine(s) == n
  {
  }

  lemma {:induction false} NothingKept(lines: seq<string>)
    ensures WithoutComments(lines) == [] <==> forall line | line in lines :: IsComment(line)
  {
    if lines != [] {
      NothingKept(lines[1..]);
      KeptFirst(lines[0], lines[1..]);
      assert lines == [lines[0]] + lines[1..];
      hide IsComment, WithoutComments;
      assert forall line :: line in lines <==> line == lines[0] || line in lines[1..];
    }
  }
}
