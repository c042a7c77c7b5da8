/** macro/kml.py: what a sequence of tokens plays. */
module KmlMeaning {
  import opened Options
  import opened KmlTokens

  const DEFAULT_TEMPO: nat := 120
  const DEFAULT_LENGTH: nat := 4
  const DEFAULT_KEYHOLD_MS: nat := 50

  datatype EventKind = Press | Release

  datatype Event = Event(kind: EventKind, keycode: nat, modifier: bv8, delay: nat, duration: nat)

  datatype Error = ZeroDivision | BadNumber

  /** The fields of a parser; `pending` is 0 while the parser has no pending rest. */
  datatype State = State(tempo: nat, length: nat, stack: seq<bv8>, pending: nat, events: seq<Event>)

  datatype Outcome = Outcome(state: State, error: Option<Error>)

  // ----- one token at a time ------------------------------------------------------------------------

  /** The length of a note in milliseconds; a whole note has four beats. */
  function Milliseconds(tempo: nat, length: nat): nat
    requires tempo > 0 && length > 0
  {
    240000 / (tempo * length)
  }

  function Bits(names: seq<string>): bv8 {
    if names == [] then 0 else
      Bits(names[..|names| - 1]) | (match Keycode(names[|names| - 1]) case Some(k) => ModifierBit(k) case None => 0)
  }

  function Pair(keycode: nat, modifier: bv8, delay: nat, duration: nat): seq<Event> {
    [Event(Press, keycode, modifier, delay, duration), Event(Release, keycode, modifier, duration, 0)]
  }

  function Tap(s: State, keycode: nat, modifier: bv8, duration: nat): State {
    s.(pending := 0, events := s.events + Pair(keycode, modifier, s.pending, duration))
  }

  function Act(s: State, token: Token): (r: Outcome)
    requires s.stack != []
    ensures r.state.stack != []
  {
    var top := s.stack[|s.stack| - 1];
    match token
    case Nothing => Outcome(s, None)
    case Set(Tempo, value) => Outcome(s.(tempo := value), None)
    case Set(Length, value) => Outcome(s.(length := value), None)
    case Set(Rest, value) =>
      if s.tempo == 0 || value == 0 then Outcome(s, Some(ZeroDivision))
      else Outcome(s.(pending := s.pending + Milliseconds(s.tempo, value)), None)
    case Set(Octave, _) => Outcome(s, None)
    case EmptyNumber => Outcome(s, Some(BadNumber))
    case Open(names) => Outcome(s.(stack := s.stack + [top | Bits(names)]), None)
    case Close => Outcome(if |s.stack| <= 1 then s else s.(stack := s.stack[..|s.stack| - 1]), None)
    case Escape(keycode) => Outcome(Tap(s, keycode, 0, DEFAULT_KEYHOLD_MS), None)
    case Special(name) =>
      Outcome(match Keycode(name) case None => s case Some(k) => Tap(s, k, top, DEFAULT_KEYHOLD_MS), None)
    case Note(c, digit) =>
      match NoteKey(c)
      case None => Outcome(s, None)
      case Some(k) =>
        var length := if digit.Some? then digit.value else s.length;
        if s.tempo == 0 || length == 0 then Outcome(s, Some(ZeroDivision))
        else Outcome(Tap(s, k, top, Milliseconds(s.tempo, length)), None)
  }

  /** Playing tokens up to the first that raises. */
  function Run(s: State, tokens: seq<Token>): (r: Outcome)
    requires s.stack != []
    ensures r.state.stack != []
  {
    if tokens == [] then Outcome(s, None) else
      var before := Run(s, tokens[..|tokens| - 1]);
      if before.error.Some? then before else Act(before.state, tokens[|tokens| - 1])
  }

  // ----- the score: what each token plays, read off the text around it -------------------------------

  /** The last tempo set before token n. */
  function TempoAt(tokens: seq<Token>, n: nat, s: State): nat
    requires n <= |tokens|
  {
    if n == 0 then s.tempo else match tokens[n - 1]
      case Set(Tempo, value) => value
      case _ => TempoAt(tokens, n - 1, s)
  }

  /** The last default length set before token n. */
  function LengthAt(tokens: seq<Token>, n: nat, s: State): nat
    requires n <= |tokens|
  {
    if n == 0 then s.length else match tokens[n - 1]
      case Set(Length, value) => value
      case _ => LengthAt(tokens, n - 1, s)
  }

  /** The modifiers of all ranges around token n, but for the innermost `skip` ones. */
  function Enclosing(tokens: seq<Token>, n: nat, skip: nat): bv8
    requires n <= |tokens|
  {
    if n == 0 then 0 as bv8 else match tokens[n - 1]
      case Close => Enclosing(tokens, n - 1, skip + 1)
      case Open(names) =>
        if skip > 0 then Enclosing(tokens, n - 1, skip - 1) else Enclosing(tokens, n - 1, 0) | Bits(names)
      case _ => Enclosing(tokens, n - 1, skip)
  }

  /** The key a token taps. */
  function KeyOf(token: Token): Option<nat> {
    match token
    case Escape(keycode) => Some(keycode)
    case Special(name) => Keycode(name)
    case Note(c, _) => NoteKey(c)
    case _ => None
  }

  /** The note length a token needs. */
  function Needs(tokens: seq<Token>, n: nat, s: State): Option<nat>
    requires n < |tokens|
  {
    match tokens[n]
    case Set(Rest, value) => Some(value)
    case Note(c, digit) =>
      if NoteKey(c) == None then None else if digit.Some? then digit else Some(LengthAt(tokens, n, s))
    case _ => None
  }

  /** Token n does not raise. */
  predicate Playable(tokens: seq<Token>, n: nat, s: State)
    requires n < |tokens|
  {
    tokens[n] != EmptyNumber
    && (Needs(tokens, n, s).Some? ==> Needs(tokens, n, s).value > 0 && TempoAt(tokens, n, s) > 0)
  }

  /** The time token n takes; 0 where it raises. */
  function TimeOf(tokens: seq<Token>, n: nat, s: State): nat
    requires n < |tokens|
  {
    match Needs(tokens, n, s)
    case Some(length) => if Playable(tokens, n, s) then Milliseconds(TempoAt(tokens, n, s), length) else 0
    case None => DEFAULT_KEYHOLD_MS
  }

  predicate IsRest(token: Token) { token.Set? && token.command == Rest }

  /** The rests since the last tap, or since the start. */
  function RestBefore(tokens: seq<Token>, n: nat, s: State): nat
    requires n <= |tokens|
  {
    if n == 0 then s.pending
    else if KeyOf(tokens[n - 1]).Some? then 0
    else RestBefore(tokens, n - 1, s) + if IsRest(tokens[n - 1]) then TimeOf(tokens, n - 1, s) else 0
  }

  /** The two events of token n, if it taps a key. */
  function Played(tokens: seq<Token>, n: nat, s: State): seq<Event>
    requires n < |tokens|
  {
    match KeyOf(tokens[n])
    case None => []
    case Some(key) =>
      Pair(key, if tokens[n].Escape? then 0 as bv8 else Enclosing(tokens, n, 0),
        RestBefore(tokens, n, s), TimeOf(tokens, n, s))
  }

  function Score(tokens: seq<Token>, n: nat, s: State): seq<Event>
    requires n <= |tokens|
  {
    if n == 0 then [] else Score(tokens, n - 1, s) + Played(tokens, n - 1, s)
  }

  predicate AllPlayable(tokens: seq<Token>, n: nat, s: State)
    requires n <= |tokens|
  {
    forall i | 0 <= i < n :: Playable(tokens, i, s)
  }

  ghost predicate Fresh(s: State) { s.stack == [0] && s.events == [] }

  /** What holds after the first n tokens, if none of them raised. */
  ghost predicate After(t: State, tokens: seq<Token>, n: nat, s: State)
    requires n <= |tokens|
  {
    && t.tempo == TempoAt(tokens, n, s) && t.length == LengthAt(tokens, n, s)
    && t.pending == RestBefore(tokens, n, s) && t.events == Score(tokens, n, s)
    && Nested(t.stack, tokens, n)
  }

  /** Level by level, the stack holds the modifiers of the open ranges. */
  ghost predicate Nested(stack: seq<bv8>, tokens: seq<Token>, n: nat)
    requires n <= |tokens|
  {
    stack != [] && stack[0] == 0 && forall k: nat :: IsLevel(stack, tokens, n, k)
  }

  predicate IsLevel(stack: seq<bv8>, tokens: seq<Token>, n: nat, k: nat)
    requires n <= |tokens|
  {
    Enclosing(tokens, n, k) == if k < |stack| then stack[|stack| - 1 - k] else 0
  }

  function StackAfter(stack: seq<bv8>, token: Token): seq<bv8>
    requires stack != []
  {
    match token
    case Open(names) => stack + [stack[|stack| - 1] | Bits(names)]
    case Close => if |stack| <= 1 then stack else stack[..|stack| - 1]
    case _ => stack
  }

  lemma NestedStep(stack: seq<bv8>, tokens: seq<Token>, n: nat)
    requires n < |tokens| && Nested(stack, tokens, n)
    ensures Nested(StackAfter(stack, tokens[n]), tokens, n + 1)
  {
    hide Bits, Enclosing, IsLevel;
    var after := n + 1;
    forall k: nat
      ensures IsLevel(StackAfter(stack, tokens[n]), tokens, after, k)
    {
      assert forall b: nat :: IsLevel(stack, tokens, n, b);
      LevelStep(stack, tokens, n, k);
    }
  }

  lemma LevelStep(stack: seq<bv8>, tokens: seq<Token>, n: nat, k: nat)
    requires n < |tokens| && stack != [] && stack[0] == 0 && IsLevel(stack, tokens, n, SkipBefore(tokens[n], k))
      && IsLevel(stack, tokens, n, 0)
    ensures IsLevel(StackAfter(stack, tokens[n]), tokens, n + 1, k)
  {
    hide Bits;
  }

  lemma TopIsEnclosing(stack: seq<bv8>, tokens: seq<Token>, n: nat)
    requires n <= |tokens| && Nested(stack, tokens, n)
    ensures stack != [] && stack[|stack| - 1] == Enclosing(tokens, n, 0)
  {
    assert IsLevel(stack, tokens, n, 0);
  }

  lemma ActStep(t: State, tokens: seq<Token>, n: nat, s: State)
    requires n < |tokens| && After(t, tokens, n, s)
    ensures Act(t, tokens[n]).error.None? <==> Playable(tokens, n, s)
    ensures Playable(tokens, n, s) ==> After(Act(t, tokens[n]).state, tokens, n + 1, s)
  {
    hide Nested, Bits, Keycode, NoteKey, Milliseconds, Enclosing, Pair;
    NestedStep(t.stack, tokens, n);
    TopIsEnclosing(t.stack, tokens, n);
    match tokens[n]
    case _ =>
  }

  /** Playing refines reading the score: it raises exactly when some token is not playable,
      and otherwise plays, token by token, what stands in the score. */
  lemma {:induction false} RunPlaysScore(s: State, tokens: seq<Token>, n: nat)
    requires Fresh(s) && n <= |tokens|
    ensures Run(s, tokens[..n]).error.None? <==> AllPlayable(tokens, n, s)
    ensures AllPlayable(tokens, n, s) ==> After(Run(s, tokens[..n]).state, tokens, n, s)
  {
    if n > 0 {
      hide Act, After, Playable;
      RunPlaysScore(s, tokens, n - 1);
      assert tokens[..n][..n - 1] == tokens[..n - 1];
      if AllPlayable(tokens, n - 1, s) {
        ActStep(Run(s, tokens[..n - 1]).state, tokens, n - 1, s);
      }
    }
  }

  // ----- what the score promises ------------------------------------------------------------------

  /** Opens minus closes among the tokens from p up to n. */
  function Depth(tokens: seq<Token>, p: nat, n: nat): int
    requires p <= n <= |tokens|
  {
    if n == p then 0
    else Depth(tokens, p, n - 1) + (if tokens[n - 1].Open? then 1 else if tokens[n - 1].Close? then -1 else 0)
  }

  /** The range opened by token p is not closed before token n. */
  ghost predicate StillOpen(tokens: seq<Token>, p: nat, n: nat) {
    p < n <= |tokens| && tokens[p].Open? && forall m: nat | p < m <= n :: Depth(tokens, p, m) >= 1
  }

  ghost predicate OpenWith(tokens: seq<Token>, p: nat, n: nat, skip: nat, mask: bv8)
    requires n <= |tokens|
  {
    StillOpen(tokens, p, n) && Depth(tokens, p, n) > skip && Bits(tokens[p].names) & mask != 0
  }

  lemma OrHits(a: bv8, b: bv8, mask: bv8)
    ensures (a | b) & mask != 0 <==> a & mask != 0 || b & mask != 0
  {
  }

  /** A modifier bit is held exactly when some range still open asks for it. */
  lemma {:induction false} ModifierIsOpenRanges(tokens: seq<Token>, n: nat, skip: nat, mask: bv8)
    requires n <= |tokens|
    ensures Enclosing(tokens, n, skip) & mask != 0 <==> exists p: nat :: OpenWith(tokens, p, n, skip, mask)
  {
    hide Bits, OpenWith, Enclosing, OpensNow, SkipBefore;
    if n > 0 {
      var before := SkipBefore(tokens[n - 1], skip);
      var m := n - 1;
      ModifierIsOpenRanges(tokens, m, before, mask);
      forall p: nat
        ensures OpenWith(tokens, p, n, skip, mask)
          <==> OpenWith(tokens, p, m, before, mask) || (p == m && OpensNow(tokens[m], skip, mask))
      {
        OpenLater(tokens, p, n, skip, mask);
      }
      EnclosingBefore(tokens, n, skip, mask);
      if p: nat :| OpenWith(tokens, p, m, before, mask) {
        assert OpenWith(tokens, p, n, skip, mask);
      }
      if OpensNow(tokens[m], skip, mask) {
        assert OpenWith(tokens, m, n, skip, mask);
      }
    } else {
      NothingOpen(tokens, skip, mask);
      NothingEnclosing(tokens, skip, mask);
    }
  }

  lemma EnclosingBefore(tokens: seq<Token>, n: nat, skip: nat, mask: bv8)
    requires 0 < n <= |tokens|
    ensures Enclosing(tokens, n, skip) & mask != 0
      <==> Enclosing(tokens, n - 1, SkipBefore(tokens[n - 1], skip)) & mask != 0 || OpensNow(tokens[n - 1], skip, mask)
  {
    hide Bits, Enclosing;
    EnclosingUnfolds(tokens, n, skip);
    if tokens[n - 1].Open? && skip == 0 {
      OrHits(Enclosing(tokens, n - 1, 0), Bits(tokens[n - 1].names), mask);
    }
  }

  lemma EnclosingUnfolds(tokens: seq<Token>, n: nat, skip: nat)
    requires 0 < n <= |tokens|
    ensures Enclosing(tokens, n, skip) ==
      if tokens[n - 1].Open? && skip == 0 then Enclosing(tokens, n - 1, 0) | Bits(tokens[n - 1].names)
      else Enclosing(tokens, n - 1, SkipBefore(tokens[n - 1], skip))
  {
    hide Bits;
  }

  function SkipBefore(token: Token, skip: nat): nat {
    if token.Close? then skip + 1 else if token.Open? && skip > 0 then skip - 1 else skip
  }

  predicate OpensNow(token: Token, skip: nat, mask: bv8) {
    token.Open? && skip == 0 && Bits(token.names) & mask != 0
  }

  lemma NothingOpen(tokens: seq<Token>, skip: nat, mask: bv8)
    ensures forall p: nat :: !OpenWith(tokens, p, 0, skip, mask)
  {
  }

  lemma NothingEnclosing(tokens: seq<Token>, skip: nat, mask: bv8)
    ensures Enclosing(tokens, 0, skip) & mask == 0
  {
  }

  lemma OpenLater(tokens: seq<Token>, p: nat, n: nat, skip: nat, mask: bv8)
    requires 0 < n <= |tokens|
    ensures OpenWith(tokens, p, n, skip, mask) <==> (
      || OpenWith(tokens, p, n - 1, SkipBefore(tokens[n - 1], skip), mask)
      || (p == n - 1 && OpensNow(tokens[n - 1], skip, mask)))
  {
    hide Bits;
    if p < n - 1 {
      assert Depth(tokens, p, n) >= 1 ==> (StillOpen(tokens, p, n - 1) <==> StillOpen(tokens, p, n));
    } else if p == n - 1 {
      assert Depth(tokens, p, n) == if tokens[p].Open? then 1 else if tokens[p].Close? then -1 else 0;
    }
  }

  /** Each level of the stack contains the one below it. */
  lemma LevelsContain(tokens: seq<Token>, n: nat, k: nat, mask: bv8)
    requires n <= |tokens| && Enclosing(tokens, n, k + 1) & mask != 0
    ensures Enclosing(tokens, n, k) & mask != 0
  {
    hide Enclosing, Bits;
    var above := k + 1;
    ModifierIsOpenRanges(tokens, n, above, mask);
    ModifierIsOpenRanges(tokens, n, k, mask);
    var p: nat :| OpenWith(tokens, p, n, above, mask);
    assert OpenWith(tokens, p, n, k, mask);
  }

  function Rests(tokens: seq<Token>, n: nat, s: State): nat
    requires n <= |tokens|
  {
    if n == 0 then 0 else Rests(tokens, n - 1, s) + if IsRest(tokens[n - 1]) then TimeOf(tokens, n - 1, s) else 0
  }

  function PressDelays(events: seq<Event>): nat {
    if events == [] then 0 else
      var last := events[|events| - 1];
      PressDelays(events[..|events| - 1]) + if last.kind == Press then last.delay else 0
  }

  lemma DelayOfPair(events: seq<Event>, keycode: nat, modifier: bv8, delay: nat, duration: nat)
    ensures PressDelays(events + Pair(keycode, modifier, delay, duration)) == PressDelays(events) + delay
  {
    var pair := Pair(keycode, modifier, delay, duration);
    var all := events + pair;
    assert all[..|all| - 1] == events + [pair[0]];
    assert (events + [pair[0]])[..|events|] == events;
  }

  /** No rest is lost or played twice. */
  lemma {:induction false} RestsConserved(tokens: seq<Token>, n: nat, s: State)
    requires n <= |tokens|
    ensures s.pending + Rests(tokens, n, s) == PressDelays(Score(tokens, n, s)) + RestBefore(tokens, n, s)
  {
    if n > 0 {
      hide TimeOf, Pair, Enclosing, Keycode, NoteKey, PressDelays;
      RestsConserved(tokens, n - 1, s);
      var token := tokens[n - 1];
      match KeyOf(token)
      case None =>
        assert Score(tokens, n, s) == Score(tokens, n - 1, s);
      case Some(key) =>
        DelayOfPair(Score(tokens, n - 1, s), key, if token.Escape? then 0 else Enclosing(tokens, n - 1, 0),
          RestBefore(tokens, n - 1, s), TimeOf(tokens, n - 1, s));
    } else {
      assert Score(tokens, n, s) == [];
    }
  }

  function Taps(tokens: seq<Token>, n: nat): nat
    requires n <= |tokens|
  {
    if n == 0 then 0 else Taps(tokens, n - 1) + if KeyOf(tokens[n - 1]).Some? then 1 else 0
  }

  /** The score is made of a press and the release of the same key for every token that taps. */
  lemma {:induction false} ScoreIsPairs(tokens: seq<Token>, n: nat, s: State)
    requires n <= |tokens|
    ensures |Score(tokens, n, s)| == 2 * Taps(tokens, n)
    ensures forall k: nat | k < Taps(tokens, n) :: IsPair(Score(tokens, n, s), k)
  {
    hide TimeOf, Enclosing, Keycode, NoteKey, RestBefore, KeyOf;
    if n > 0 {
      ScoreIsPairs(tokens, n - 1, s);
      var before := Score(tokens, n - 1, s);
      forall k: nat | k < Taps(tokens, n)
        ensures IsPair(Score(tokens, n, s), k)
      {
        if k < Taps(tokens, n - 1) { assert IsPair(before, k); }
      }
    }
  }

  predicate IsPair(events: seq<Event>, k: nat) {
    && 2 * k + 1 < |events|
    && var press, release := events[2 * k], events[2 * k + 1];
    && press.kind == Press && release.kind == Release
    && press.keycode == release.keycode && press.modifier == release.modifier
    && release.delay == press.duration && release.duration == 0
  }
}
