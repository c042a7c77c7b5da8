/** macro/kml.py: the macro parser, which plays while it scans. */
module KmlParser {
  import opened Options
  import opened KmlTokens
  import opened KmlMeaning
  import opened KmlTiming

  /** A step of the parser does what its item says, and goes to the end of that item. */
  ghost predicate Does(before: State, after: State, item: Item, i: nat, next: nat, error: Option<Error>)
    requires before.stack != []
  {
    Outcome(after, error) == Act(before, item.token) && next == i + item.length
  }

  /** The loops that run over characters of one class. */
  method SkipWhile(kml: string, i: nat, class_: char -> bool) returns (j: nat)
    requires i <= |kml|
    ensures j == i + Span(kml[i..], class_)
  {
    j := i;
    while j < |kml| && class_(kml[j])
      invariant i <= j <= |kml|
      invariant Span(kml[i..], class_) == j - i + Span(kml[j..], class_)
    {
      assert kml[j..][1..] == kml[j + 1..];
      j := j + 1;
    }
  }

  /** `names` are those of the range at i that stand before j. */
  ghost predicate Reads(kml: string, i: nat, j: nat, names: seq<string>) {
    i <= j <= |kml| && Range(kml[i..]) == (names + Range(kml[j..]).0, j - i + Range(kml[j..]).1)
  }

  lemma ReadsAll(kml: string, i: nat, j: nat, names: seq<string>)
    requires Reads(kml, i, j, names) && Range(kml[j..]) == ([], 0)
    ensures Range(kml[i..]) == (names, j - i)
  {
    hide Range;
    assert names + [] == names;
  }

  lemma ReadsMore(kml: string, i: nat, j: nat, names: seq<string>, added: seq<string>, k: nat)
    requires Reads(kml, i, j, names) && j <= k <= |kml|
    requires Range(kml[j..]) == (added + Range(kml[k..]).0, k - j + Range(kml[k..]).1)
    ensures Reads(kml, i, k, names + added)
  {
    hide Range;
    assert names + (added + Range(kml[k..]).0) == names + added + Range(kml[k..]).0;
  }

  /** One round of the loop over the modifiers of a range. */
  method ReadName(kml: string, i: nat, j: nat, names: seq<string>) returns (more: bool, j': nat, names': seq<string>)
    requires Reads(kml, i, j, names)
    ensures j <= j' <= |kml| && (more ==> j < j' && Reads(kml, i, j', names'))
    ensures !more ==> Range(kml[i..]) == (names', j' - i)
  {
    hide ModifierNames, Range, Reads;
    assert i <= j <= |kml| by { ReadsBounds(kml, i, j, names); }
    var step := NextInRange(kml, j);
    match step {
      case None =>
        ReadsAll(kml, i, j, names);
        more, j', names' := false, j, names;
      case Some((added, k)) =>
        ReadsMore(kml, i, j, names, added, k);
        more, j', names' := true, k, names + added;
    }
  }

  lemma ReadsBounds(kml: string, i: nat, j: nat, names: seq<string>)
    requires Reads(kml, i, j, names)
    ensures i <= j <= |kml|
  {
  }

  lemma RangeEnds(s: string)
    requires s == "" || "\\]" <= s || (!IsGap(s[0]) && !IsAlpha(s[0]))
      || (!IsGap(s[0]) && s[..Span(s, IsAlnum)] !in ModifierNames())
    ensures Range(s) == ([], 0)
  {
  }

  lemma RangeSkips(s: string)
    requires s != "" && IsGap(s[0])
    ensures Range(s) == ([] + Range(s[1..]).0, 1 + Range(s[1..]).1)
  {
    assert s[0] != "\\]"[0];
    assert [] + Range(s[1..]).0 == Range(s[1..]).0;
  }

  /** A blank, or a modifier name with what joins it to the next; None where the content starts. */
  method NextInRange(kml: string, j: nat) returns (step: Option<(seq<string>, nat)>)
    requires j <= |kml|
    ensures step.None? ==> Range(kml[j..]) == ([], 0)
    ensures step.Some? ==> (
      var (added, k) := step.value;
      j < k <= |kml| && Range(kml[j..]) == (added + Range(kml[k..]).0, k - j + Range(kml[k..]).1))
  {
    hide ModifierNames, Range, Span;
    if j >= |kml| || "\\]" <= kml[j..] {
      RangeEnds(kml[j..]);
      return None;
    }
    if IsGap(kml[j]) {
      RangeSkips(kml[j..]);
      assert kml[j..][1..] == kml[j + 1..];
      return Some(([], j + 1));
    }
    if !IsAlpha(kml[j]) {
      RangeEnds(kml[j..]);
      return None;
    }
    var end := SkipWhile(kml, j, IsAlnum);
    assert kml[j..end] == kml[j..][..end - j];
    if kml[j..end] !in ModifierNames() {
      RangeEnds(kml[j..]);
      return None;
    }
    var k := SkipWhile(kml, end, IsJoin);
    assert kml[j..][end - j..] == kml[end..] && kml[j..][k - j..] == kml[k..];
    RangeGoesOn(kml[j..], kml[j..end], k - end, kml[k..]);
    assert k > j by { SpanStarts(kml[j..], IsAlnum); }
    return Some(([kml[j..end]], k));
  }

  lemma SpanStarts(s: string, class_: char -> bool)
    requires s != "" && class_(s[0])
    ensures Span(s, class_) > 0
  {
  }

  method ReadNames(kml: string, i: nat) returns (names: seq<string>, j: nat)
    requires i <= |kml|
    ensures (names, j - i) == Range(kml[i..])
  {
    hide Range;
    names, j := [], i;
    assert [] + Range(kml[i..]).0 == Range(kml[i..]).0;
    var more := true;
    while more
      invariant i <= j <= |kml|
      invariant more ==> Reads(kml, i, j, names)
      invariant !more ==> Range(kml[i..]) == (names, j - i)
      decreases if more then 1 + |kml| - j else 0
    {
      more, j, names := ReadName(kml, i, j, names);
    }
  }

  method OrBits(names: seq<string>) returns (bits: bv8)
    ensures bits == Bits(names)
  {
    bits := 0;
    for k := 0 to |names|
      invariant bits == Bits(names[..k])
    {
      assert names[..k + 1][..k] == names[..k];
      var keycode := Keycode(names[k]);
      if keycode.Some? { bits := bits | ModifierBit(keycode.value); }
    }
    assert names[..|names|] == names;
  }

  /** Dropping the comment lines. */
  method StripComments(text: string) returns (content: string)
    ensures content == Content(text)
  {
    var lines := Split(text);
    var kept: seq<string> := [];
    for i := 0 to |lines|
      invariant i <= |lines| && WithoutComments(lines) == kept + WithoutComments(lines[i..])
    {
      assert lines[i..][1..] == lines[i + 1..];
      if !IsComment(lines[i]) { kept := kept + [lines[i]]; }
    }
    assert lines[|lines|..] == [] && kept + [] == kept;
    content := JoinLines(kept);
  }

  lemma RunOneMore(s: State, done: seq<Token>, token: Token)
    requires s.stack != []
    ensures var before := Run(s, done);
      Run(s, done + [token]) == if before.error.Some? then before else Act(before.state, token)
  {
  }

  /** Nothing is played after an error. */
  lemma {:induction false} RunStops(s: State, done: seq<Token>, rest: seq<Token>)
    requires s.stack != [] && Run(s, done).error.Some?
    ensures Run(s, done + rest) == Run(s, done)
  {
    if rest == [] {
      assert done + rest == done;
    } else {
      RunStops(s, done, rest[..|rest| - 1]);
      assert done + rest == done + rest[..|rest| - 1] + [rest[|rest| - 1]];
      RunOneMore(s, done + rest[..|rest| - 1], rest[|rest| - 1]);
    }
  }

  class Parser {
    var tempo: nat
    var defaultLength: nat
    var events: seq<Event>
    var modifierStack: seq<bv8>
    var pendingRest: nat

    ghost predicate Valid() reads this { modifierStack != [] }

    ghost function Now(): State reads this {
      State(tempo, defaultLength, modifierStack, pendingRest, events)
    }

    constructor ()
      ensures Valid() && Now() == State(DEFAULT_TEMPO, DEFAULT_LENGTH, [0], 0, [])
    {
      tempo, defaultLength := DEFAULT_TEMPO, DEFAULT_LENGTH;
      events, modifierStack, pendingRest := [], [0], 0;
    }

    method AddTapEvent(keycode: nat, modifier: bv8, duration: nat)
      requires Valid()
      modifies this
      ensures Valid() && Now() == Tap(old(Now()), keycode, modifier, duration)
    {
      var delay := 0;
      if pendingRest > 0 {
        delay := pendingRest;
        pendingRest := 0;
      }
      events := events + [Event(Press, keycode, modifier, delay, duration)];
      events := events + [Event(Release, keycode, modifier, duration, 0)];
    }

    /** _length_to_ms, on floating-point numbers; None is the division by zero. */
    method LengthToMs(length: nat) returns (ms: Option<nat>)
      ensures ms == if tempo == 0 || length == 0 then None else Some(Milliseconds(tempo, length))
    {
      if tempo == 0 || length == 0 { return None; }
      TimingIsExact(tempo, length);
      return Some(FloatMs(tempo, length));
    }

    /** The value of the command whose letter is at i + 1. */
    method ParseCommandValue(kml: string, i: nat, command: Command) returns (next: nat, error: Option<Error>)
      requires Valid() && i + 2 <= |kml|
      modifies this
      ensures Valid() && Does(old(Now()), Now(), CommandItem(kml[i..], command), i, next, error)
    {
      hide Span, Number, Keycodes, Keycode, NoteKey;
      var value: nat;
      ghost var s := kml[i..];
      if i + 2 < |kml| && kml[i + 2] == '[' {
        var j := SkipWhile(kml, i + 3, IsDigit);
        assert kml[i + 3..] == s[3..];
        if j >= |kml| || kml[j] != ']' { return i + 2, None; }
        if j == i + 3 { return i + 4, Some(BadNumber); }
        assert kml[i + 3..j] == s[3..j - i];
        value, next := Number(kml[i + 3..j]), j + 1;
      } else {
        var j := SkipWhile(kml, i + 2, IsDigit);
        assert kml[i + 2..] == s[2..];
        if j == i + 2 { return i + 2, None; }
        assert kml[i + 2..j] == s[2..j - i];
        value, next := Number(kml[i + 2..j]), j;
      }
      error := None;
      match command
      case Tempo => tempo := value;
      case Length => defaultLength := value;
      case Rest =>
        var rest := LengthToMs(value);
        if rest == None { return next, Some(ZeroDivision); }
        pendingRest := pendingRest + rest.value;
      case Octave =>
    }

    /** The modifier names after the opening of a range. */
    method ParseRangeStart(kml: string, i: nat) returns (next: nat)
      requires Valid() && i <= |kml|
      modifies this
      ensures Valid() && next == i + Range(kml[i..]).1
      ensures Outcome(Now(), None) == Act(old(Now()), Open(Range(kml[i..]).0))
    {
      hide Range, Bits;
      var names, j := ReadNames(kml, i);
      var bits := OrBits(names);
      modifierStack := modifierStack + [modifierStack[|modifierStack| - 1] | bits];
      return j;
    }

    method ParseRangeEnd(i: nat) returns (next: nat)
      requires Valid()
      modifies this
      ensures Valid() && next == i && Outcome(Now(), None) == Act(old(Now()), Close)
    {
      if |modifierStack| <= 1 { return i; }
      modifierStack := modifierStack[..|modifierStack| - 1];
      return i;
    }

    method ParseEscape(kml: string, i: nat) returns (next: nat, error: Option<Error>)
      requires Valid() && i < |kml| && kml[i] == '\\'
      modifies this
      ensures Valid() && Does(old(Now()), Now(), EscapeItem(kml[i..]), i, next, error)
    {
      error := None;
      if i + 1 >= |kml| { return i + 1, None; }
      assert kml[i + 2..] == kml[i..][2..];
      match kml[i + 1] {
        case 'T' => next, error := ParseCommandValue(kml, i, Tempo);
        case 'L' => next, error := ParseCommandValue(kml, i, Length);
        case 'R' => next, error := ParseCommandValue(kml, i, Rest);
        case 'O' => next, error := ParseCommandValue(kml, i, Octave);
        case '[' => next := ParseRangeStart(kml, i + 2);
        case ']' => next := ParseRangeEnd(i + 2);
        case 'n' => AddTapEvent(40, 0, DEFAULT_KEYHOLD_MS); next := i + 2;
        case 't' => AddTapEvent(43, 0, DEFAULT_KEYHOLD_MS); next := i + 2;
        case 'b' => AddTapEvent(42, 0, DEFAULT_KEYHOLD_MS); next := i + 2;
        case 's' => AddTapEvent(44, 0, DEFAULT_KEYHOLD_MS); next := i + 2;
        case _ => next := i + 2;
      }
    }

    method ParseSpecialKey(kml: string, i: nat) returns (next: nat)
      requires Valid() && i < |kml| && kml[i] == '['
      modifies this
      ensures Valid() && Does(old(Now()), Now(), SpecialItem(kml[i..]), i, next, None)
    {
      hide Span, Keycodes;
      var j := SkipWhile(kml, i + 1, NotClosing);
      assert kml[i..][1..] == kml[i + 1..];
      if j >= |kml| { return i + 1; }
      var name := kml[i + 1..j];
      assert name == kml[i..][1..j - i];
      var keycode := Keycode(name);
      if keycode.Some? {
        AddTapEvent(keycode.value, modifierStack[|modifierStack| - 1], DEFAULT_KEYHOLD_MS);
      }
      return j + 1;
    }

    method ParseCharacter(kml: string, i: nat) returns (next: nat, error: Option<Error>)
      requires Valid() && i < |kml|
      modifies this
      ensures Valid() && Does(old(Now()), Now(), CharacterItem(kml[i..]), i, next, error)
    {
      hide Keycodes;
      var length := defaultLength;
      var j := i + 1;
      if j < |kml| && IsDigit(kml[j]) {
        length := kml[j] as int - '0' as int;
        j := j + 1;
      }
      var keycode := NoteKey(kml[i]);
      if keycode == None { return i + 1, None; }
      var duration := LengthToMs(length);
      if duration == None { return j, Some(ZeroDivision); }
      AddTapEvent(keycode.value, modifierStack[|modifierStack| - 1], duration.value);
      return j, None;
    }

    /** One round of the loop in parse. */
    method ParseItem(kml: string, i: nat) returns (next: nat, error: Option<Error>)
      requires Valid() && i < |kml|
      modifies this
      ensures Valid() && Does(old(Now()), Now(), ItemAt(kml[i..]), i, next, error)
    {
      error := None;
      if IsGap(kml[i]) { return i + 1, None; }
      if kml[i] == '\\' {
        next, error := ParseEscape(kml, i);
      } else if kml[i] == '[' {
        next := ParseSpecialKey(kml, i);
      } else {
        next, error := ParseCharacter(kml, i);
      }
    }

    /** Scanning and playing at once plays the tokens of the text without its comment lines.
        The tempo, the default length and a pending rest are carried over from earlier calls. */
    method Parse(text: string) returns (error: Option<Error>)
      requires Valid()
      modifies this
      ensures Valid()
      ensures Outcome(Now(), error)
        == Run(old(Now()).(stack := [0], events := []), Tokens(Content(text)))
    {
      hide Act, ItemAt, Run, Content, Tokens, Added;
      events, modifierStack := [], [0];
      ghost var start := Now();
      var kml := StripComments(text);
      var i: nat := 0;
      error := None;
      ghost var done: seq<Token> := [];
      RunNothing(start, kml);
      while i < |kml| && error == None
        invariant Valid() && i <= |kml|
        invariant Outcome(Now(), error) == Run(start, done)
        invariant Tokens(kml) == done + Tokens(kml[i..])
        decreases if error == None then 1 + |kml| - i else 0
      {
        ghost var token := ItemAt(kml[i..]).token;
        FirstToken(kml, i, done);
        RunItem(start, done, token);
        i, error := ParseItem(kml, i);
        done := Added(done, token);
      }
      if error == None {
        assert kml[i..] == "" && done + [] == done;
      } else {
        RunStops(start, done, Tokens(kml[i..]));
      }
    }
  }

  function Added(done: seq<Token>, token: Token): seq<Token> {
    done + if token == Nothing then [] else [token]
  }

  lemma FirstToken(kml: string, i: nat, done: seq<Token>)
    requires i < |kml|
    ensures var item := ItemAt(kml[i..]);
      done + Tokens(kml[i..]) == Added(done, item.token) + Tokens(kml[i + item.length..])
  {
    hide ItemAt;
    var item := ItemAt(kml[i..]);
    assert kml[i..][item.length..] == kml[i + item.length..];
  }

  lemma RunNothing(s: State, kml: string)
    requires s.stack != []
    ensures Run(s, []) == Outcome(s, None) && Tokens("") == [] && kml[0..] == kml && [] + Tokens(kml) == Tokens(kml)
  {
  }

  lemma RunItem(s: State, done: seq<Token>, token: Token)
    requires s.stack != [] && Run(s, done).error.None?
    ensures Run(s, Added(done, token)) == Act(Run(s, done).state, token)
  {
    if token == Nothing {
      assert Added(done, token) == done;
    } else {
      RunOneMore(s, done, token);
    }
  }

  /** What one call of parse on a new parser returns, in terms of the score of the text. */
  lemma ParsedScore(text: string, r: Outcome)
    requires r == Run(State(DEFAULT_TEMPO, DEFAULT_LENGTH, [0], 0, []), Tokens(Content(text)))
    ensures var s, tokens := State(DEFAULT_TEMPO, DEFAULT_LENGTH, [0], 0, []), Tokens(Content(text));
      && (r.error.None? <==> AllPlayable(tokens, |tokens|, s))
      && (r.error.None? ==> (
        && r.state.events == Score(tokens, |tokens|, s)
        && |r.state.events| == 2 * Taps(tokens, |tokens|)
        && (forall k: nat | 2 * k < |r.state.events| :: IsPair(r.state.events, k))
        && PressDelays(r.state.events) + r.state.pending == Rests(tokens, |tokens|, s)))
  {
    hide Tokens, Content, Run, Score, RestBefore, AllPlayable, Rests, PressDelays, Taps, IsPair;
    var s, tokens := State(DEFAULT_TEMPO, DEFAULT_LENGTH, [0], 0, []), Tokens(Content(text));
    RunPlaysScore(s, tokens, |tokens|);
    assert tokens[..|tokens|] == tokens;
    ScoreIsPairs(tokens, |tokens|, s);
    RestsConserved(tokens, |tokens|, s);
  }
}
