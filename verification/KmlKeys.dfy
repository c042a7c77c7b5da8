/** macro/kml.py: which key a character or a name stands for, numbered as in section 10 of the HID
    Usage Tables, and what short texts play on a new parser. */
module KmlKeys {
  import opened Options
  import opened Chars
  import opened KmlTokens
  import opened KmlMeaning
  import opened KmlParser

  // ----- the keys of characters ---------------------------------------------------------------------

  lemma NamedKeysAreLonger()
    ensures forall name | name in NamedKeys() :: |name| >= 2
  {
  }

  lemma ModifierKeysAreLonger()
    ensures forall name | name in ModifierKeys() :: |name| >= 2
  {
  }

  lemma OneCharacter(c: char)
    ensures [c] in Keycodes() <==> [c] in CharacterKeys()
    ensures [c] in Keycodes() ==> Keycodes()[[c]] == CharacterKeys()[[c]]
  {
    hide CharacterKeys, NamedKeys, ModifierKeys;
    NamedKeysAreLonger();
    ModifierKeysAreLonger();
  }

  lemma FirstLetters(c: char)
    requires 'A' <= c <= 'G'
    ensures [c] in CharacterKeys() && CharacterKeys()[[c]] == 4 + (c as int - 'A' as int)
  {
    if c == 'A' { assert [c] == "A"; }
    if c == 'B' { assert [c] == "B"; }
    if c == 'C' { assert [c] == "C"; }
    if c == 'D' { assert [c] == "D"; }
    if c == 'E' { assert [c] == "E"; }
    if c == 'F' { assert [c] == "F"; }
    if c == 'G' { assert [c] == "G"; }
  }

  lemma MoreLetters(c: char)
    requires 'H' <= c <= 'N'
    ensures [c] in CharacterKeys() && CharacterKeys()[[c]] == 4 + (c as int - 'A' as int)
  {
    if c == 'H' { assert [c] == "H"; }
    if c == 'I' { assert [c] == "I"; }
    if c == 'J' { assert [c] == "J"; }
    if c == 'K' { assert [c] == "K"; }
    if c == 'L' { assert [c] == "L"; }
    if c == 'M' { assert [c] == "M"; }
    if c == 'N' { assert [c] == "N"; }
  }

  lemma LaterLetters(c: char)
    requires 'O' <= c <= 'T'
    ensures [c] in CharacterKeys() && CharacterKeys()[[c]] == 4 + (c as int - 'A' as int)
  {
    if c == 'O' { assert [c] == "O"; }
    if c == 'P' { assert [c] == "P"; }
    if c == 'Q' { assert [c] == "Q"; }
    if c == 'R' { assert [c] == "R"; }
    if c == 'S' { assert [c] == "S"; }
    if c == 'T' { assert [c] == "T"; }
  }

  lemma LastLetters(c: char)
    requires 'U' <= c <= 'Z'
    ensures [c] in CharacterKeys() && CharacterKeys()[[c]] == 4 + (c as int - 'A' as int)
  {
    if c == 'U' { assert [c] == "U"; }
    if c == 'V' { assert [c] == "V"; }
    if c == 'W' { assert [c] == "W"; }
    if c == 'X' { assert [c] == "X"; }
    if c == 'Y' { assert [c] == "Y"; }
    if c == 'Z' { assert [c] == "Z"; }
  }

  lemma Digits(c: char)
    requires '1' <= c <= '9'
    ensures [c] in CharacterKeys() && CharacterKeys()[[c]] == 30 + (c as int - '1' as int)
  {
    if c == '1' { assert [c] == "1"; }
    if c == '2' { assert [c] == "2"; }
    if c == '3' { assert [c] == "3"; }
    if c == '4' { assert [c] == "4"; }
    if c == '5' { assert [c] == "5"; }
    if c == '6' { assert [c] == "6"; }
    if c == '7' { assert [c] == "7"; }
    if c == '8' { assert [c] == "8"; }
    if c == '9' { assert [c] == "9"; }
  }

  lemma NoCharacter(c: char)
    requires !('A' <= c <= 'Z' || '0' <= c <= '9')
    ensures [c] !in CharacterKeys()
  {
  }

  /** Letters are numbered from 4 on, digits from 30 on, and 0 comes last. */
  lemma CharacterKey(c: char)
    ensures Keycode([c]) ==
      if 'A' <= c <= 'Z' then Some(4 + (c as int - 'A' as int))
      else if '1' <= c <= '9' then Some(30 + (c as int - '1' as int))
      else if c == '0' then Some(39)
      else None
  {
    OneCharacter(c);
    if 'A' <= c <= 'G' { FirstLetters(c); }
    else if 'H' <= c <= 'N' { MoreLetters(c); }
    else if 'O' <= c <= 'T' { LaterLetters(c); }
    else if 'U' <= c <= 'Z' { LastLetters(c); }
    else if '1' <= c <= '9' { Digits(c); }
    else if c == '0' { assert [c] == "0" && CharacterKeys()["0"] == 39; }
    else { NoCharacter(c); }
    hide Keycodes, CharacterKeys;
  }

  /** A character taps the key of its letter, small or capital, or of its digit; of the others
      only the two whose capital is an ASCII letter tap a key. */
  lemma NoteTaps(c: char)
    ensures 'A' <= c <= 'Z' ==> NoteKey(c) == Some(4 + (c as int - 'A' as int))
    ensures 'a' <= c <= 'z' ==> NoteKey(c) == Some(4 + (c as int - 'a' as int))
    ensures '1' <= c <= '9' ==> NoteKey(c) == Some(30 + (c as int - '1' as int))
    ensures c == '0' ==> NoteKey(c) == Some(39)
    ensures c == '\U{131}' ==> NoteKey(c) == Some(12)
    ensures c == '\U{17F}' ==> NoteKey(c) == Some(22)
    ensures NoteKey(c).Some?
      ==> 'A' <= c <= 'Z' || 'a' <= c <= 'z' || '0' <= c <= '9' || c == '\U{131}' || c == '\U{17F}'
  {
    hide Keycode;
    CharacterKey(UpperOf(c));
  }

  // ----- the keys of names ----------------------------------------------------------------------------

  lemma EditingKeys()
    ensures Named("Enter") == Some(0x28)
    ensures Named("Esc") == Some(0x29)
    ensures Named("Escape") == Some(0x29)
  {
  }

  lemma BlankKeys()
    ensures Named("Backspace") == Some(0x2A)
    ensures Named("Tab") == Some(0x2B)
    ensures Named("Space") == Some(0x2C)
  {
  }

  lemma PunctuationKeys()
    ensures Named("Minus") == Some(0x2D)
    ensures Named("Equal") == Some(0x2E)
    ensures Named("Insert") == Some(0x49)
    ensures Named("Home") == Some(0x4A)
    ensures Named("PageUp") == Some(0x4B)
  {
  }

  lemma UpperBlock()
    ensures Named("PgUp") == Some(0x4B)
    ensures Named("Delete") == Some(0x4C)
    ensures Named("End") == Some(0x4D)
    ensures Named("PageDown") == Some(0x4E)
    ensures Named("PgDn") == Some(0x4E)
  {
  }

  lemma LowerBlock()
    ensures Named("Right") == Some(0x4F)
    ensures Named("Left") == Some(0x50)
    ensures Named("Down") == Some(0x51)
    ensures Named("Up") == Some(0x52)
  {
  }

  function Named(name: string): Option<nat> {
    if name in NamedKeys() then Some(NamedKeys()[name]) else None
  }

  /** A name of two characters or more is looked up among the named keys and the modifiers. */
  lemma LongName(name: string)
    requires |name| >= 2
    ensures name in ModifierKeys() ==> Keycode(name) == Some(ModifierKeys()[name])
    ensures name !in ModifierKeys() ==> Keycode(name) == Named(name)
  {
    CharactersAreShort();
    hide CharacterKeys, NamedKeys, ModifierKeys;
  }

  lemma CharactersAreShort()
    ensures forall name | name in CharacterKeys() :: |name| == 1
  {
  }

  lemma FunctionKeys()
    ensures Named("F1") == Some(0x3A) && Named("F2") == Some(0x3B) && Named("F3") == Some(0x3C)
    ensures Named("F4") == Some(0x3D) && Named("F5") == Some(0x3E) && Named("F6") == Some(0x3F)
  {
  }

  lemma MoreFunctionKeys()
    ensures Named("F7") == Some(0x40) && Named("F8") == Some(0x41) && Named("F9") == Some(0x42)
    ensures Named("F10") == Some(0x43) && Named("F11") == Some(0x44) && Named("F12") == Some(0x45)
  {
  }

  // ----- the modifiers --------------------------------------------------------------------------------

  /** Left control, shift, alt and GUI have the bits 0 to 3, the right ones 4 to 7. */
  lemma BitOf(k: nat)
    ensures ModifierBit(0xE0 + k) == if k < 8 then (1 as bv8) << k else 0
  {
  }

  lemma ControlAndShift()
    ensures "Ctrl" in ModifierKeys() && ModifierKeys()["Ctrl"] == 0xE0
    ensures "LCtrl" in ModifierKeys() && ModifierKeys()["LCtrl"] == 0xE0
    ensures "RCtrl" in ModifierKeys() && ModifierKeys()["RCtrl"] == 0xE4
    ensures "Shift" in ModifierKeys() && ModifierKeys()["Shift"] == 0xE1
    ensures "LShift" in ModifierKeys() && ModifierKeys()["LShift"] == 0xE1
    ensures "RShift" in ModifierKeys() && ModifierKeys()["RShift"] == 0xE5
  {
  }

  lemma AltAndGui()
    ensures "Alt" in ModifierKeys() && ModifierKeys()["Alt"] == 0xE2
    ensures "LAlt" in ModifierKeys() && ModifierKeys()["LAlt"] == 0xE2
    ensures "RAlt" in ModifierKeys() && ModifierKeys()["RAlt"] == 0xE6
    ensures "Win" in ModifierKeys() && ModifierKeys()["Win"] == 0xE3
    ensures "LWin" in ModifierKeys() && ModifierKeys()["LWin"] == 0xE3
    ensures "RWin" in ModifierKeys() && ModifierKeys()["RWin"] == 0xE7
  {
  }

  lemma OtherGui()
    ensures "GUI" in ModifierKeys() && ModifierKeys()["GUI"] == 0xE3
    ensures "Command" in ModifierKeys() && ModifierKeys()["Command"] == 0xE3
    ensures "Cmd" in ModifierKeys() && ModifierKeys()["Cmd"] == 0xE3
  {
  }

  lemma ModifiersAreNamed(name: string)
    ensures name in ModifierNames() <==> name in ModifierKeys()
  {
  }

  lemma BitsOfOne(name: string)
    requires name in ModifierNames()
    ensures Keycode(name) == Some(ModifierKeys()[name]) && Bits([name]) == ModifierBit(ModifierKeys()[name])
  {
    ModifiersAreNamed(name);
    NamesAreLong(name);
    LongName(name);
    hide Keycode, ModifierKeys, ModifierNames, ModifierBit;
    assert [name][..0] == [];
  }

  lemma NamesAreLong(name: string)
    requires name in ModifierNames()
    ensures |name| >= 3 && forall c | c in name :: IsAlpha(c)
  {
    NameShapes();
    hide ModifierNames;
  }

  // ----- what texts play -------------------------------------------------------------------------------

  /** What parse leaves on a new parser. */
  function Played(text: string): Outcome { Run(State(120, 4, [0], 0, []), Tokens(Content(text))) }

  method PlayOnce(text: string) returns (error: Option<Error>, events: seq<Event>)
    ensures Played(text).error == error && Played(text).state.events == events
  {
    var parser := new Parser();
    error := parser.Parse(text);
    events := parser.events;
  }

  /** The events of a word of letters and digits, each a quarter note at 120 beats a minute, with
      modifiers held. */
  function Typed(word: string, modifier: bv8): seq<Event>
    requires forall c | c in word :: NoteKey(c).Some?
  {
    if word == "" then [] else
      assert word[|word| - 1] in word;
      var key := NoteKey(word[|word| - 1]).value;
      Typed(word[..|word| - 1], modifier)
        + [Event(Press, key, modifier, 0, 500), Event(Release, key, modifier, 500, 0)]
  }

  function NotesOf(word: string): seq<Token> {
    seq(|word|, i requires 0 <= i < |word| => Note(word[i], None))
  }

  /** A note on a parser that has set nothing. */
  lemma NoteAct(t: State, c: char)
    requires t.stack != [] && t.tempo == 120 && t.length == 4 && t.pending == 0 && NoteKey(c).Some?
    ensures var key, modifier := NoteKey(c).value, t.stack[|t.stack| - 1];
      Act(t, Note(c, None)) == Outcome(t.(events := t.events
        + [Event(Press, key, modifier, 0, 500), Event(Release, key, modifier, 500, 0)]), None)
  {
    hide NoteKey;
    assert Milliseconds(120, 4) == 500;
  }

  lemma {:induction false} NotesAreTyped(word: string, s: State, prefix: seq<Token>)
    requires forall c | c in word :: NoteKey(c).Some?
    requires s.stack != [] && Run(s, prefix).error == None
    requires var t := Run(s, prefix).state; t.tempo == 120 && t.length == 4 && t.pending == 0
    ensures var t := Run(s, prefix).state;
      Run(s, prefix + NotesOf(word))
        == Outcome(t.(events := t.events + Typed(word, t.stack[|t.stack| - 1])), None)
  {
    hide NoteKey, Act, Run;
    var t := Run(s, prefix).state;
    if word == "" {
      assert prefix + NotesOf(word) == prefix && t.events + [] == t.events;
    } else {
      var front, last := word[..|word| - 1], word[|word| - 1];
      assert last in word && forall c | c in front :: c in word;
      NotesAreTyped(front, s, prefix);
      assert prefix + NotesOf(word) == prefix + NotesOf(front) + [Note(last, None)];
      RunOneMore(s, prefix + NotesOf(front), Note(last, None));
      NoteAct(Run(s, prefix + NotesOf(front)).state, last);
    }
  }

  /** A text of letters types them one by one. */
  lemma WordIsTyped(word: string)
    requires forall c | c in word :: IsAlpha(c)
    ensures (forall c | c in word :: NoteKey(c).Some?)
      && Played(word) == Outcome(State(120, 4, [0], 0, Typed(word, 0)), None)
  {
    hide NoteKey, Run, Content, Tokens;
    forall c | c in word {
      LettersTap(c);
    }
    WordContent(word);
    WordTokens(word);
    RunNone(State(120, 4, [0], 0, []));
    NotesAreTyped(word, State(120, 4, [0], 0, []), []);
    assert [] + NotesOf(word) == NotesOf(word);
    var none: seq<Event> := [];
    assert none + Typed(word, 0) == Typed(word, 0);
  }

  lemma RunNone(s: State)
    requires s.stack != []
    ensures Run(s, []) == Outcome(s, None)
  {
  }

  lemma LettersTap(c: char)
    requires IsAlpha(c)
    ensures NoteKey(c).Some? && !IsSpace(c) && c != '#' && c != '\n' && !IsDigit(c) && !IsGap(c)
  {
    NoteTaps(c);
    hide NoteKey;
  }

  lemma WordContent(word: string)
    requires forall c | c in word :: IsAlpha(c)
    ensures Content(word) == word
  {
    forall c | c in word
      ensures c != '\n'
    {
      LettersTap(c);
    }
    if word != "" { LettersTap(word[0]); }
    OneLineContent(word);
  }

  lemma OneLineContent(text: string)
    requires '\n' !in text && (text != "" ==> !IsSpace(text[0]) && text[0] != '#')
    ensures Content(text) == text
  {
    hide IsSpace;
    assert FirstLine(text) == |text|;
    assert Split(text) == [text];
    assert !IsComment(text);
    assert WithoutComments([text]) == [text];
  }

  lemma {:induction false} WordTokens(word: string)
    requires forall c | c in word :: IsAlpha(c)
    ensures Tokens(word) == NotesOf(word)
  {
    hide NoteKey;
    if word != "" {
      LettersTap(word[0]);
      if |word| > 1 { LettersTap(word[1]); }
      WordTokens(word[1..]);
      assert ItemAt(word) == Item(Note(word[0], None), 1);
      assert NotesOf(word) == [Note(word[0], None)] + NotesOf(word[1..]);
    }
  }

  /** A word inside a range is typed with the modifier of the range, which ends with it. */
  lemma ModifiedWord(name: string, word: string)
    requires name in ModifierNames() && word != "" && word !in ModifierNames() && forall c | c in word :: IsAlpha(c)
    ensures (forall c | c in word :: NoteKey(c).Some?)
      && Played("\\[" + name + " " + word + " \\]")
        == Outcome(State(120, 4, [0], 0, Typed(word, ModifierBit(ModifierKeys()[name]))), None)
  {
    hide NoteKey, Run, Content, Tokens, ModifierNames, ModifierKeys, ModifierBit, Keycode, Act;
    ModifiersAreNamed(name);
    forall c | c in word {
      LettersTap(c);
    }
    var text, s := "\\[" + name + " " + word + " \\]", State(120, 4, [0], 0, []);
    var open, bits := Token.Open([name]), ModifierBit(ModifierKeys()[name]);
    RangeContent(name, word);
    RangeTokens(name, word);
    RunNone(s);
    RunOneMore(s, [], open);
    assert [] + [open] == [open];
    BitsOfOne(name);
    OpenAct(s, [name], bits);
    NotesAreTyped(word, s, [open]);
    RunOneMore(s, [open] + NotesOf(word), Close);
    var none: seq<Event> := [];
    assert none + Typed(word, bits) == Typed(word, bits);
    CloseAct(State(120, 4, [0, bits], 0, Typed(word, bits)));
  }

  lemma OpenAct(s: State, names: seq<string>, bits: bv8)
    requires s.stack == [0] && Bits(names) == bits
    ensures Act(s, Token.Open(names)) == Outcome(s.(stack := [0, bits]), None)
  {
    hide Bits;
    assert (0 as bv8) | bits == bits;
    assert [0 as bv8] + [bits] == [0, bits];
  }

  lemma CloseAct(s: State)
    requires |s.stack| == 2
    ensures Act(s, Close) == Outcome(s.(stack := [s.stack[0]]), None)
  {
    assert s.stack[..1] == [s.stack[0]];
  }

  lemma RangeContent(name: string, word: string)
    requires name in ModifierNames() && forall c | c in word :: IsAlpha(c)
    ensures var text := "\\[" + name + " " + word + " \\]";
      Content(text) == text
  {
    hide Content, ModifierNames;
    NamesAreLong(name);
    var text := "\\[" + name + " " + word + " \\]";
    forall c | c in name || c in word
      ensures c != '\n'
    {
      LettersTap(c);
    }
    assert text[0] == '\\';
    OneLineContent(text);
  }

  lemma RangeTokens(name: string, word: string)
    requires name in ModifierNames() && word != "" && word !in ModifierNames() && forall c | c in word :: IsAlpha(c)
    ensures Tokens("\\[" + name + " " + word + " \\]") == [Token.Open([name])] + NotesOf(word) + [Close]
  {
    hide Tokens, ModifierNames, NoteKey, Range, ItemAt;
    var rest := word + " \\]";
    var text, after := "\\[" + name + " " + word + " \\]", name + " " + rest;
    assert text == "\\[" + after && text[2..] == after;
    RangeOf(name, word);
    RangeItem(text, after);
    assert text[2 + |name| + 1..] == rest;
    TokenFirst(text, Token.Open([name]), 2 + |name| + 1, rest);
    WordThenClose(word);
    assert [Token.Open([name])] + (NotesOf(word) + [Close]) == [Token.Open([name])] + NotesOf(word) + [Close];
  }

  lemma RangeItem(text: string, after: string)
    requires text == "\\[" + after
    ensures ItemAt(text) == Item(Token.Open(Range(after).0), 2 + Range(after).1)
  {
    hide Range;
    assert text[2..] == after;
  }

  lemma RangeOf(name: string, word: string)
    requires name in ModifierNames() && word != "" && word !in ModifierNames() && forall c | c in word :: IsAlpha(c)
    ensures Range(name + " " + (word + " \\]")) == ([name], |name| + 1)
  {
    hide ModifierNames, Range, Span;
    NamesAreLong(name);
    var rest := word + " \\]";
    var s := name + " " + rest;
    assert s == name + (" " + rest);
    assert s[0] == name[0] && name[0] in name;
    SpanOf(name, " " + rest, IsAlnum);
    assert s[..|name|] == name && s[|name|..] == " " + rest;
    assert rest[0] == word[0] && word[0] in word;
    SpanOf(" ", rest, IsJoin);
    assert s[|name| + 1..] == rest;
    NoMoreNames(word);
    RangeName(s, |name|, 1);
    assert [name] + [] == [name];
  }

  lemma RangeName(s: string, k: nat, g: nat)
    requires s != "" && IsAlpha(s[0]) && k == Span(s, IsAlnum) && s[..k] in ModifierNames() && g == Span(s[k..], IsJoin)
    ensures Range(s) == ([s[..k]] + Range(s[k + g..]).0, k + g + Range(s[k + g..]).1)
  {
    hide ModifierNames, Span;
  }

  lemma NoMoreNames(word: string)
    requires word != "" && word !in ModifierNames() && forall c | c in word :: IsAlpha(c)
    ensures Range(word + " \\]") == ([], 0)
  {
    hide ModifierNames, Span;
    var rest := word + " \\]";
    assert rest[0] == word[0] && word[0] in word;
    SpanOf(word, " \\]", IsAlnum);
    assert rest[..|word|] == word;
  }

  lemma {:induction false} WordThenClose(word: string)
    requires forall c | c in word :: IsAlpha(c)
    ensures Tokens(word + " \\]") == NotesOf(word) + [Close]
  {
    hide NoteKey;
    var s := word + " \\]";
    if word == "" {
      assert s[1..] == "\\]" && "\\]"[2..] == "";
      assert ItemAt(s) == Item(Nothing, 1) && ItemAt("\\]") == Item(Close, 2);
      assert Tokens("\\]") == [Close] + Tokens("");
      assert NotesOf(word) == [];
    } else {
      LettersTap(word[0]);
      if |word| > 1 { LettersTap(word[1]); }
      WordThenClose(word[1..]);
      assert s[1..] == word[1..] + " \\]";
      assert ItemAt(s) == Item(Note(word[0], None), 1);
      assert NotesOf(word) == [Note(word[0], None)] + NotesOf(word[1..]);
    }
  }

  // ----- times -----------------------------------------------------------------------------------------

  /** A program as written is played token by token. */
  lemma PrintedIsPlayed(pieces: seq<Piece>)
    requires forall piece | piece in pieces :: Writable(piece.token)
    ensures Played(PrintAll(pieces)) == Run(State(120, 4, [0], 0, []), TokensOf(pieces))
  {
    hide Run, Tokens, Content, Writable;
    PrintedProgram(pieces);
  }

  /** Tempo, default length and rest set the times of the note that follows: a rest before the
      press, then the length given with the note or the default one. */
  lemma TimedNote(tempo: nat, length: nat, rest: nat, c: char, digit: Option<nat>)
    requires tempo > 0 && length > 0 && rest > 0 && NoteKey(c).Some?
    requires digit.Some? ==> 0 < digit.value < 10
    ensures var pieces := [Piece(Set(Tempo, tempo), true), Piece(Set(Length, length), false),
        Piece(Set(Rest, rest), true), Piece(Note(c, digit), false)];
      var r, shown := Played(PrintAll(pieces)), if digit.Some? then digit.value else length;
      r.error == None && r.state.events == [
        Event(Press, NoteKey(c).value, 0, Milliseconds(tempo, rest), Milliseconds(tempo, shown)),
        Event(Release, NoteKey(c).value, 0, Milliseconds(tempo, shown), 0)]
  {
    hide NoteKey, Run, PrintAll, Act, Milliseconds;
    var s, note := State(120, 4, [0], 0, []), Note(c, digit);
    var pieces := [Piece(Set(Tempo, tempo), true), Piece(Set(Length, length), false),
      Piece(Set(Rest, rest), true), Piece(note, false)];
    PrintedIsPlayed(pieces);
    var tokens := TokensOf(pieces);
    assert tokens == [Set(Tempo, tempo)] + [Set(Length, length)] + [Set(Rest, rest)] + [note];
    RunNone(s);
    RunOneMore(s, [], Set(Tempo, tempo));
    assert [] + [Set(Tempo, tempo)] == [Set(Tempo, tempo)];
    RunOneMore(s, [Set(Tempo, tempo)], Set(Length, length));
    RunOneMore(s, [Set(Tempo, tempo)] + [Set(Length, length)], Set(Rest, rest));
    RunOneMore(s, [Set(Tempo, tempo)] + [Set(Length, length)] + [Set(Rest, rest)], note);
    TimedActs(s, tempo, length, rest, c, digit);
  }

  lemma TimedActs(s: State, tempo: nat, length: nat, rest: nat, c: char, digit: Option<nat>)
    requires s == State(120, 4, [0], 0, []) && tempo > 0 && length > 0 && rest > 0 && NoteKey(c).Some?
    requires digit.Some? ==> 0 < digit.value < 10
    ensures Act(s, Set(Tempo, tempo)) == Outcome(s.(tempo := tempo), None)
    ensures Act(s.(tempo := tempo), Set(Length, length)) == Outcome(s.(tempo := tempo, length := length), None)
    ensures var t := s.(tempo := tempo, length := length); var delay := Milliseconds(tempo, rest);
      Act(t, Set(Rest, rest)) == Outcome(t.(pending := delay), None)
    ensures var t := State(tempo, length, [0], Milliseconds(tempo, rest), []);
      var shown := if digit.Some? then digit.value else length;
      Act(t, Note(c, digit)) == Outcome(t.(pending := 0, events := [
        Event(Press, NoteKey(c).value, 0, t.pending, Milliseconds(tempo, shown)),
        Event(Release, NoteKey(c).value, 0, Milliseconds(tempo, shown), 0)]), None)
  {
    hide NoteKey, Milliseconds;
  }

  /** A key name in brackets taps its key for the default time; another text is passed over. */
  lemma SpecialKey(name: string)
    requires ']' !in name && '\n' !in name
    ensures Played("[" + name + "]") == Outcome(State(120, 4, [0], 0,
      if Keycode(name) == None then []
      else [Event(Press, Keycode(name).value, 0, 0, 50), Event(Release, Keycode(name).value, 0, 50, 0)]), None)
  {
    hide Keycode, Run, PrintAll, Act;
    var s, piece := State(120, 4, [0], 0, []), Piece(Special(name), false);
    PrintedIsPlayed([piece]);
    OnePrinted(piece);
    RunNone(s);
    RunOneMore(s, [], Special(name));
    assert [] + [Special(name)] == [Special(name)];
    SpecialAct(s, name);
  }

  lemma OnePrinted(piece: Piece)
    ensures PrintAll([piece]) == Print(piece) && TokensOf([piece]) == [piece.token]
  {
    hide Print;
    assert [piece][1..] == [];
    assert PrintAll([piece][1..]) == "";
  }

  lemma SpecialAct(s: State, name: string)
    requires s == State(120, 4, [0], 0, [])
    ensures Act(s, Special(name)) == Outcome(if Keycode(name) == None then s else s.(events := [
      Event(Press, Keycode(name).value, 0, 0, 50), Event(Release, Keycode(name).value, 0, 50, 0)]), None)
  {
    hide Keycode;
  }

  /** The shell escapes tap enter, tab, backspace and space, without the modifiers of a range. */
  lemma EscapeKey(letter: char, t: State)
    requires letter in {'n', 't', 'b', 's'} && t.stack != []
    ensures var key :=
        if letter == 'n' then 0x28 else if letter == 't' then 0x2B else if letter == 'b' then 0x2A else 0x2C;
      && ItemAt(['\\', letter]) == Item(Escape(key), 2)
      && Act(t, Escape(key)) == Outcome(t.(pending := 0, events := t.events
        + [Event(Press, key, 0, t.pending, 50), Event(Release, key, 0, 50, 0)]), None)
  {
  }
}
