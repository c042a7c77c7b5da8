/** What generated matrix streams consist of: the characters of a packet, which keys are chosen,
    and the keys each sequence presses and releases. */
module ReplayLaws {
  import opened Options
  import opened Ordering
  import opened MatrixReplay

  // ----- packets -----------------------------------------------------------------------------------

  /** The digits of rows and columns, as written, and as they may be read. */
  const UPPER := "0123456789ABCDEF"
  const LOWER := "0123456789abcdef"

  lemma DigitsAre(n: nat)
    requires n < 16
    ensures HexDigit(n) == UPPER[n] && HexValue(UPPER[n]) == Some(n) && HexValue(LOWER[n]) == Some(n)
  {
  }

  lemma OnlyDigitsRead(c: char)
    ensures HexValue(c) == None <==> c !in UPPER && c !in LOWER
  {
    if HexValue(c).Some? {
      var n := HexValue(c).value;
      DigitsAre(n);
      assert UPPER[n] in UPPER && LOWER[n] in LOWER;
      assert c == UPPER[n] || c == LOWER[n];
    }
    if c in UPPER {
      var n: nat :| n < 16 && UPPER[n] == c;
      DigitsAre(n);
    }
    if c in LOWER {
      var n: nat :| n < 16 && LOWER[n] == c;
      DigitsAre(n);
    }
  }

  /** Four characters for each event: which kind, the row, the column, and the end of the line. */
  lemma PacketIs(row: nat, col: nat)
    requires row < 16 && col < 16
    ensures InRange((row, col)) && forall i, j :: InRange((i, j)) ==> 0 <= i < 16 && 0 <= j < 16
    ensures Packet(Event(true, (row, col))) == ['P', UPPER[row], UPPER[col], '\n']
    ensures Packet(Event(false, (row, col))) == ['R', UPPER[row], UPPER[col], '\n']
  {
    DigitsAre(row);
    DigitsAre(col);
  }

  /** A packet is read if it is of one of the two kinds and has two digits, whatever ends it. */
  lemma PacketIsRead(kind: char, a: char, b: char, end: char)
    ensures ReadPacket([kind, a, b, end]).Some? <==>
      kind in "PR" && (a in UPPER || a in LOWER) && (b in UPPER || b in LOWER)
    ensures forall row: nat, col: nat | row < 16 && col < 16 && a in [UPPER[row], LOWER[row]]
        && b in [UPPER[col], LOWER[col]] && kind in "PR" ::
      ReadPacket([kind, a, b, end]) == Some(Event(kind == 'P', (row, col)))
  {
    OnlyDigitsRead(a);
    OnlyDigitsRead(b);
    forall row: nat, col: nat | row < 16 && col < 16 && a in [UPPER[row], LOWER[row]]
      && b in [UPPER[col], LOWER[col]] && kind in "PR"
      ensures ReadPacket([kind, a, b, end]) == Some(Event(kind == 'P', (row, col)))
    {
      DigitsAre(row);
      DigitsAre(col);
    }
  }

  /** A stream is read packet by packet, and refused for a part of one. */
  lemma StreamIsRead(packet: string, rest: string)
    requires |packet| == 4
    ensures Stream("") == Some([]) && (|rest| % 4 != 0 ==> Stream(rest) == None)
    ensures Stream(packet + rest) == match (ReadPacket(packet), Stream(rest))
      case (Some(e), Some(events)) => Some([e] + events)
      case _ => None
  {
    var data := packet + rest;
    assert data[..4] == packet && data[4..] == rest;
    assert |data| % 4 == |rest| % 4;
  }

  // ----- held keys ----------------------------------------------------------------------------------

  /** The last event on the cell before i. */
  ghost predicate LastBefore(events: seq<Event>, cell: Cell, i: nat, j: nat) {
    j < i <= |events| && events[j].cell == cell && forall k | j < k < i :: events[k].cell != cell
  }

  ghost predicate DownBefore(events: seq<Event>, cell: Cell, i: nat) {
    exists j: nat :: LastBefore(events, cell, i, j) && events[j].press
  }

  ghost predicate IsLegal(events: seq<Event>, i: nat)
    requires i < |events|
  {
    events[i].press <==> !DownBefore(events, events[i].cell, i)
  }

  /** A run is legal if presses are of keys that are up and releases of keys that are down; held are
      the cells whose last event is a press. */
  lemma {:induction false} HeldMeans(events: seq<Event>)
    ensures Held(events).Some? <==> forall i | 0 <= i < |events| :: IsLegal(events, i)
    ensures Held(events).Some? ==> forall cell :: cell in Held(events).value <==> DownBefore(events, cell, |events|)
  {
    hide Held;
    NothingHeld();
    if events != [] {
      var n := |events| - 1;
      var front, e := events[..n], events[n];
      HeldMeans(front);
      HeldMore(front, e);
      assert events == front + [e];
      SameBefore(events, n);
      LastIs(events);
      assert forall i | 0 <= i < n :: IsLegal(front, i) <==> IsLegal(events, i);
      assert IsLegal(events, n) <==> (e.press <==> !DownBefore(events, e.cell, n));
    }
  }

  lemma SameBefore(events: seq<Event>, n: nat)
    requires n <= |events|
    ensures forall cell, i: nat | i <= n :: DownBefore(events[..n], cell, i) <==> DownBefore(events, cell, i)
  {
    var front := events[..n];
    forall cell, i: nat | i <= n
      ensures DownBefore(front, cell, i) <==> DownBefore(events, cell, i)
    {
      assert forall j: nat :: LastBefore(front, cell, i, j) <==> LastBefore(events, cell, i, j);
    }
  }

  lemma LastIs(events: seq<Event>)
    requires events != []
    ensures var n, e := |events| - 1, events[|events| - 1];
      forall cell :: DownBefore(events, cell, |events|)
        <==> if cell == e.cell then e.press else DownBefore(events, cell, n)
  {
    var n, e := |events| - 1, events[|events| - 1];
    forall cell
      ensures DownBefore(events, cell, |events|) <==> if cell == e.cell then e.press else DownBefore(events, cell, n)
    {
      if cell == e.cell {
        assert LastBefore(events, cell, |events|, n);
      } else {
        assert forall j: nat :: LastBefore(events, cell, |events|, j) <==> LastBefore(events, cell, n, j);
      }
    }
  }

  // ----- the choice of keys ---------------------------------------------------------------------------

  /** Codes 1 to 223 are normal keys, 224 to 231 modifiers; code 0 is supported and neither. */
  lemma KeyCodes(keycodes: map<string, int>, action: string, code: int)
    ensures var coded := keycodes[action := code];
      && (IsNormal(coded, action) <==> 1 <= code <= 223) && (IsModifier(coded, action) <==> 224 <= code <= 231)
      && (IsSupported(coded, action) <==> 0 <= code <= 231) && (IsTapped(coded, action) <==> 1 <= code <= 231)
    ensures var coded := keycodes - {action};
      !IsNormal(coded, action) && !IsModifier(coded, action) && !IsSupported(coded, action) && !IsTapped(coded, action)
  {
  }

  /** A layer action is one of five names with a number in parentheses. */
  lemma LayerActionIs(reading: Reading, inner: string)
    ensures LayerAction(reading, "MO(" + inner + ")") == Numbered(MO, reading.integer(inner))
    ensures LayerAction(reading, "TG(" + inner + ")") == Numbered(TG, reading.integer(inner))
    ensures LayerAction(reading, "TO(" + inner + ")") == Numbered(TO, reading.integer(inner))
    ensures LayerAction(reading, "DF(" + inner + ")") == Numbered(DF, reading.integer(inner))
    ensures LayerAction(reading, "OSL(" + inner + ")") == Numbered(OSL, reading.integer(inner))
  {
    hide Opening;
    OpeningsAre();
    Spelled(reading, MO, inner);
    Spelled(reading, TG, inner);
    Spelled(reading, TO, inner);
    Spelled(reading, DF, inner);
    Spelled(reading, OSL, inner);
  }

  function Numbered(op: LayerOp, n: Option<int>): Option<(LayerOp, int)> {
    match n case None => None case Some(i) => Some((op, i))
  }

  lemma OpeningsAre()
    ensures Opening(MO) == "MO(" && Opening(TG) == "TG(" && Opening(TO) == "TO(" && Opening(DF) == "DF("
    ensures Opening(OSL) == "OSL("
  {
  }

  lemma Spelled(reading: Reading, op: LayerOp, inner: string)
    ensures LayerAction(reading, Opening(op) + inner + ")") == Numbered(op, reading.integer(inner))
  {
    var action := Opening(op) + inner + ")";
    assert action[..|Opening(op)|] == Opening(op) && action[|Opening(op)|..|action| - 1] == inner;
    assert action[0] == Opening(op)[0] && action[1] == Opening(op)[1];
    assert OpOf(action) == Some(op);
  }

  /** Nothing else is one. */
  lemma LayerActionsOnly(reading: Reading, action: string)
    ensures LayerAction(reading, action).Some? ==>
      exists op, inner :: action == Opening(op) + inner + ")" && LayerAction(reading, action).value.0 == op
  {
    if LayerAction(reading, action).Some? {
      var op := LayerAction(reading, action).value.0;
      var inner := action[|Opening(op)|..|action| - 1];
      assert action == Opening(op) + inner + ")";
    }
  }

  /** What is selected stays in order. */
  lemma {:induction false} SelectedInOrder(coords: seq<string>, wanted: string -> bool)
    requires Increasing(StringLess, coords)
    ensures Increasing(StringLess, Select(coords, wanted))
  {
    hide StringLess;
    if coords != [] {
      SelectedInOrder(coords[1..], wanted);
      var rest := Select(coords[1..], wanted);
      forall c | c in rest
        ensures StringLess(coords[0], c)
      {
        var k :| 0 <= k < |coords[1..]| && coords[1..][k] == c;
        assert StringLess(coords[0], coords[k + 1]);
      }
      var all := Select(coords, wanted);
      forall i, j | 0 <= i < j < |all|
        ensures StringLess(all[i], all[j])
      {
        if wanted(coords[0]) {
          assert all == [coords[0]] + rest;
          if i == 0 { assert all[j] == rest[j - 1] && all[j] in rest; }
        }
      }
    }
  }

  /** The keys to be tapped: those of the base layer with a code that is supported and not 0, in
      the order of their coordinates. */
  lemma TappedAre(base: Layer, keycodes: map<string, int>)
    ensures Increasing(StringLess, Tapped(base, keycodes))
    ensures forall c :: (
      c in Tapped(base, keycodes) <==> c in base && base[c] in keycodes && 1 <= keycodes[base[c]] <= 231)
  {
    hide Select;
    SelectedInOrder(SortedCoords(base), c => c in base && IsTapped(keycodes, base[c]));
  }

  /** Of the tapped keys, the modifiers and the others; and in a layer, the keys a layer key may
      lead to, itself excepted. */
  lemma ChoicesAre(base: Layer, keycodes: map<string, int>, tapped: seq<string>, source: string)
    requires Increasing(StringLess, tapped)
    ensures Increasing(StringLess, Normal(base, keycodes, tapped))
      && Increasing(StringLess, Modifiers(base, keycodes, tapped))
      && Increasing(StringLess, Targets(base, keycodes, source))
    ensures forall c :: (
      && (c in Normal(base, keycodes, tapped) <==>
        c in tapped && c in base && base[c] in keycodes && 1 <= keycodes[base[c]] <= 223)
      && (c in Modifiers(base, keycodes, tapped) <==>
        c in tapped && c in base && base[c] in keycodes && 224 <= keycodes[base[c]] <= 231)
      && (c in Targets(base, keycodes, source) <==> IsTarget(base, keycodes, source, c)))
  {
    hide Select;
    SelectedInOrder(tapped, c => c in base && IsNormal(keycodes, base[c]));
    SelectedInOrder(tapped, c => c in base && IsModifier(keycodes, base[c]));
    SelectedInOrder(SortedCoords(base), c => c in base && c != source && IsNormal(keycodes, base[c]));
  }

  /** The first n, or all but the last -n. */
  lemma TakenAre<T>(s: seq<T>, n: int)
    ensures Take(s, n) <= s
    ensures |Take(s, n)| == if n >= |s| then |s| else if n >= 0 then n else if |s| + n >= 0 then |s| + n else 0
  {
  }

  /** layers[n]: from the front, or with a negative number from the end. */
  lemma LayerIs(before: seq<Layer>, layer: Layer, after: seq<Layer>, n: nat)
    ensures var layers := before + [layer] + after;
      && LayerAt(layers, |before|) == Some(Some(layer)) && LayerAt(layers, -|after| - 1) == Some(Some(layer))
      && LayerAt(layers, |layers| + n) == Some(None) && LayerAt(layers, -|layers| - 1 - n) == None
    ensures LayerAt([], n) == Some(None)
  {
  }

  // ----- what the sequences press ---------------------------------------------------------------------

  /** A tap presses and releases its key; a chord taps the second key while the first is held; and
      so does a momentary layer key.  A toggle is tapped before and after, the others before. */
  lemma KeysPressed(a: Cell, b: Cell, actions: seq<string>)
    ensures Run(Tap, a, b, actions).Events() == [Event(true, a), Event(false, a)]
    ensures Run(Chord, a, b, actions).Events()
      == [Event(true, a), Event(true, b), Event(false, b), Event(false, a)]
    ensures Run(OfLayer(MO), a, b, actions).Events()
      == [Event(true, a), Event(true, b), Event(false, b), Event(false, a)]
    ensures Run(OfLayer(TG), a, b, actions).Events()
      == [Event(true, a), Event(false, a), Event(true, b), Event(false, b), Event(true, a), Event(false, a)]
    ensures forall op | op in {TO, DF, OSL} :: (
      Run(OfLayer(op), a, b, actions).Events()
        == [Event(true, a), Event(false, a), Event(true, b), Event(false, b)])
  {
  }

  /** The taps: of the first keys, in order, each with its action. */
  lemma TapsAre(reading: Reading, base: Layer, coords: seq<string>, k: nat)
    requires (forall c | c in coords :: c in base) && k < |coords|
    ensures TapRuns(reading, base, coords)[k]
      == Run(Tap, reading.cell(coords[k]), reading.cell(coords[k]), [base[coords[k]]])
  {
  }

  /** The chord, of the first modifier and the first other key. */
  lemma ChordIs(reading: Reading, base: Layer, keycodes: map<string, int>, modifier: string, key: string)
    requires var tapped := Tapped(base, keycodes);
      && (modifier in tapped && key in tapped)
      && IsLeast(StringLess, modifier, set c | c in tapped && keycodes[base[c]] > 223)
      && IsLeast(StringLess, key, set c | c in tapped && keycodes[base[c]] < 224)
    ensures ChordRuns(reading, base, keycodes, Tapped(base, keycodes))
      == [Run(Chord, reading.cell(modifier), reading.cell(key), [base[modifier], base[key]])]
  {
    var tapped := Tapped(base, keycodes);
    hide StringLess, Tapped, Normal, Modifiers, Targets;
    TappedAre(base, keycodes);
    ChoicesAre(base, keycodes, tapped, "");
    StringOrder();
    var normal, modifiers := Normal(base, keycodes, tapped), Modifiers(base, keycodes, tapped);
    assert modifier in modifiers && key in normal;
    FirstIsLeast(modifiers, modifier);
    FirstIsLeast(normal, key);
  }

  lemma FirstIsLeast(coords: seq<string>, c: string)
    requires Increasing(StringLess, coords) && c in coords
    requires forall d | d in coords :: d == c || StringLess(c, d)
    ensures coords[0] == c
  {
    StringOrder();
    hide StringLess;
    var k :| 0 <= k < |coords| && coords[k] == c;
    assert coords[0] in coords;
    if k > 0 { assert StringLess(coords[0], coords[k]); }
  }

  /** Without a modifier, or without another key, there is none. */
  lemma NoChord(reading: Reading, base: Layer, keycodes: map<string, int>)
    requires var tapped := Tapped(base, keycodes);
      (forall c | c in tapped :: keycodes[base[c]] > 223) || forall c | c in tapped :: keycodes[base[c]] < 224
    ensures ChordRuns(reading, base, keycodes, Tapped(base, keycodes)) == []
  {
    var tapped := Tapped(base, keycodes);
    hide StringLess, Tapped, Normal, Modifiers, Targets;
    TappedAre(base, keycodes);
    ChoicesAre(base, keycodes, tapped, "");
    var normal, modifiers := Normal(base, keycodes, tapped), Modifiers(base, keycodes, tapped);
    assert normal == [] || normal[0] in normal;
    assert modifiers == [] || modifiers[0] in modifiers;
  }

  /** A normal key of the layer, other than the layer key. */
  predicate IsTarget(layer: Layer, keycodes: map<string, int>, source: string, c: string) {
    c in layer && c != source && layer[c] in keycodes && 1 <= keycodes[layer[c]] <= 223
  }

  ghost predicate IsFirstTarget(layer: Layer, keycodes: map<string, int>, source: string, c: string) {
    IsTarget(layer, keycodes, source, c)
    && forall d | IsTarget(layer, keycodes, source, d) :: d == c || StringLess(c, d)
  }

  /** A layer key and the first key of its layer; nothing if it is none, or has no such layer or no
      such key. */
  lemma LayerRunIs(reading: Reading, layers: seq<Layer>, keycodes: map<string, int>, c: string)
    requires layers != [] && c in layers[0]
    ensures var action, runs := LayerAction(reading, layers[0][c]), LayerRuns(reading, layers, keycodes, c);
      && (action == None ==> runs == Some([]))
      && (action.Some? ==> (
        var (op, n) := action.value;
        && (LayerAt(layers, n) == None ==> runs == None)
        && (LayerAt(layers, n) == Some(None) ==> runs == Some([]))
        && forall layer | LayerAt(layers, n) == Some(Some(layer)) :: (
          && ((forall d :: !IsTarget(layer, keycodes, c, d)) ==> runs == Some([]))
          && (forall t | IsFirstTarget(layer, keycodes, c, t) :: runs == Some([
            Run(OfLayer(op), reading.cell(c), reading.cell(t), [layers[0][c], layer[t]])])))))
  {
    hide StringLess, Targets, LayerAction, LayerAt;
    var action := LayerAction(reading, layers[0][c]);
    if action.Some? && LayerAt(layers, action.value.1).Some? && LayerAt(layers, action.value.1).value.Some? {
      var layer := LayerAt(layers, action.value.1).value.value;
      var targets := Targets(layer, keycodes, c);
      ChoicesAre(layer, keycodes, [], c);
      if targets != [] { assert targets[0] in targets; }
      forall t | IsFirstTarget(layer, keycodes, c, t)
        ensures targets[0] == t
      {
        FirstIsLeast(targets, t);
      }
    }
  }

  /** All together: the taps of the first keys, the chord, and the layer keys' runs in the order of
      their coordinates. */
  lemma RunsAre(reading: Reading, layers: seq<Layer>, keycodes: map<string, int>, maxBasic: int)
    ensures var base, runs := Base(layers), Runs(reading, layers, keycodes, maxBasic);
      var tapped, sources := Tapped(base, keycodes), SortedCoords(base);
      && (forall c | c in Take(tapped, maxBasic) :: c in base) && (forall c | c in sources :: c in base)
      && (sources != [] ==> layers != [] && base == layers[0])
      && (runs.Some? <==> forall c | c in sources :: LayerRuns(reading, layers, keycodes, c).Some?)
      && (runs.Some? ==> exists ofLayers :: (
        && IsJoined(ofLayers, reading, layers, keycodes, sources)
        && runs.value == TapRuns(reading, base, Take(tapped, maxBasic))
          + ChordRuns(reading, base, keycodes, tapped) + ofLayers))
  {
    hide Tapped, Take, TapRuns, ChordRuns, SortedCoords, LayerRuns, AllLayerRuns;
    var base := Base(layers);
    var sources := SortedCoords(base);
    TapsAreKeys(base, keycodes, maxBasic);
    SourcesAreKeys(base);
    assert sources != [] ==> sources[0] in sources;
    AllJoined(reading, layers, keycodes, sources, |sources|);
    assert sources[..|sources|] == sources;
  }

  /** The runs of the layer keys one after the other. */
  ghost predicate IsJoined(runs: seq<Run>, reading: Reading, layers: seq<Layer>, keycodes: map<string, int>,
                           sources: seq<string>)
    requires (sources != [] ==> layers != []) && forall c | c in sources :: c in layers[0]
  {
    if sources == [] then runs == []
    else
      var first := LayerRuns(reading, layers, keycodes, sources[0]);
      && first.Some? && first.value <= runs
      && IsJoined(runs[|first.value|..], reading, layers, keycodes, sources[1..])
  }

  lemma {:induction false} AllJoined(reading: Reading, layers: seq<Layer>, keycodes: map<string, int>,
                                     sources: seq<string>, n: nat)
    requires n <= |sources| && (sources != [] ==> layers != []) && forall c | c in sources :: c in layers[0]
    ensures var all := AllLayerRuns(reading, layers, keycodes, sources, n);
      && (all.Some? <==> forall k | 0 <= k < n :: LayerRuns(reading, layers, keycodes, sources[k]).Some?)
      && (all.Some? ==> IsJoined(all.value, reading, layers, keycodes, sources[..n]))
  {
    hide LayerRuns;
    if n > 0 {
      AllJoined(reading, layers, keycodes, sources, n - 1);
      var all := AllLayerRuns(reading, layers, keycodes, sources, n);
      if all.Some? {
        assert sources[..n] == sources[..n - 1] + [sources[n - 1]];
        JoinedMore(AllLayerRuns(reading, layers, keycodes, sources, n - 1).value,
          LayerRuns(reading, layers, keycodes, sources[n - 1]).value, reading, layers, keycodes,
          sources[..n - 1], sources[n - 1]);
      }
    }
  }

  lemma {:induction false} JoinedMore(runs: seq<Run>, more: seq<Run>, reading: Reading, layers: seq<Layer>,
                                      keycodes: map<string, int>, sources: seq<string>, c: string)
    requires layers != [] && c in layers[0] && (forall d | d in sources :: d in layers[0])
    requires IsJoined(runs, reading, layers, keycodes, sources)
    requires LayerRuns(reading, layers, keycodes, c) == Some(more)
    ensures IsJoined(runs + more, reading, layers, keycodes, sources + [c])
  {
    hide LayerRuns;
    var all := sources + [c];
    if sources == [] {
      assert all[0] == c && all[1..] == [] && runs + more == more && more[|more|..] == [];
    } else {
      var first := LayerRuns(reading, layers, keycodes, sources[0]).value;
      assert all[0] == sources[0] && all[1..] == sources[1..] + [c];
      assert (runs + more)[|first|..] == runs[|first|..] + more;
      JoinedMore(runs[|first|..], more, reading, layers, keycodes, sources[1..], c);
    }
  }
}
