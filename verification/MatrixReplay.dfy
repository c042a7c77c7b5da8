/** tools/logicd_core_parity_suite.py and tools/logicd_python_matrix_replay.py: generating key
    matrix streams from a keymap, and reading them back.  Bytes are written as characters. */
module MatrixReplay {
  import opened Options
  import opened Ordering

  type Cell = (int, int)

  datatype Event = Event(press: bool, cell: Cell)

  // ----- packets -------------------------------------------------------------------------------------

  function HexDigit(n: nat): char
    requires n < 16
  {
    if n < 10 then ('0' as int + n) as char else ('A' as int + n - 10) as char
  }

  /** int(c, 16) for one character */
  function HexValue(c: char): (v: Option<nat>)
    ensures v.Some? ==> v.value < 16
  {
    if '0' <= c <= '9' then Some(c as int - '0' as int)
    else if 'A' <= c <= 'F' then Some(c as int - 'A' as int + 10)
    else if 'a' <= c <= 'f' then Some(c as int - 'a' as int + 10)
    else None
  }

  predicate InRange(cell: Cell) { 0 <= cell.0 <= 15 && 0 <= cell.1 <= 15 }

  /** matrix_packet */
  function Packet(e: Event): string
    requires InRange(e.cell)
  {
    [if e.press then 'P' else 'R', HexDigit(e.cell.0), HexDigit(e.cell.1), '\n']
  }

  function Packets(events: seq<Event>): (s: string)
    requires forall e | e in events :: InRange(e.cell)
    ensures |s| == 4 * |events|
  {
    if events == [] then "" else Packet(events[0]) + Packets(events[1..])
  }

  /** One packet of four characters; the last one is not looked at. */
  function ReadPacket(packet: string): Option<Event>
    requires |packet| == 4
  {
    if packet[0] != 'P' && packet[0] != 'R' then None
    else match (HexValue(packet[1]), HexValue(packet[2]))
      case (Some(row), Some(col)) => Some(Event(packet[0] == 'P', (row, col)))
      case _ => None
  }

  function ReadPackets(data: string): Option<seq<Event>>
    requires |data| % 4 == 0
    decreases |data|
  {
    if data == "" then Some([])
    else match (ReadPacket(data[..4]), ReadPackets(data[4..]))
      case (Some(e), Some(events)) => Some([e] + events)
      case _ => None
  }

  function Stream(data: string): Option<seq<Event>> {
    if |data| % 4 != 0 then None else ReadPackets(data)
  }

  function After(read: seq<Event>, rest: Option<seq<Event>>): Option<seq<Event>> {
    match rest case Some(events) => Some(read + events) case None => None
  }

  lemma OnePacket(data: string, offset: nat, read: seq<Event>)
    requires |data| % 4 == 0 && offset % 4 == 0 && offset < |data|
    ensures After(read, ReadPackets(data[offset..]))
      == match ReadPacket(data[offset..offset + 4])
        case None => None
        case Some(e) => After(read + [e], ReadPackets(data[offset + 4..]))
  {
    hide ReadPacket;
    assert data[offset..][..4] == data[offset..offset + 4] && data[offset..][4..] == data[offset + 4..];
    match (ReadPacket(data[offset..offset + 4]), ReadPackets(data[offset + 4..]))
    case (Some(e), Some(rest)) => assert read + ([e] + rest) == read + [e] + rest;
    case _ =>
  }

  /** parse_matrix_stream; None is an exception. */
  method ParseMatrixStream(data: string) returns (events: Option<seq<Event>>)
    ensures events == Stream(data)
  {
    if |data| % 4 != 0 { return None; }
    var read: seq<Event> := [];
    var offset: nat := 0;
    assert data[0..] == data && forall rest: seq<Event> :: [] + rest == rest;
    while offset < |data|
      invariant offset <= |data| && offset % 4 == 0
      invariant ReadPackets(data) == After(read, ReadPackets(data[offset..]))
    {
      var e := ReadPacket(data[offset..offset + 4]);
      OnePacket(data, offset, read);
      if e == None { return None; }
      read := read + [e.value];
      offset := offset + 4;
    }
    assert read + [] == read;
    return Some(read);
  }

  lemma PacketReads(e: Event)
    requires InRange(e.cell)
    ensures ReadPacket(Packet(e)) == Some(e)
  {
  }

  /** A generated stream reads back as the events it was made of. */
  lemma {:induction false} PacketsRead(events: seq<Event>)
    requires forall e | e in events :: InRange(e.cell)
    ensures Stream(Packets(events)) == Some(events)
  {
    if events != [] {
      PacketReads(events[0]);
      PacketsRead(events[1..]);
      var s := Packets(events);
      assert s[..4] == Packet(events[0]) && s[4..] == Packets(events[1..]);
      assert events == [events[0]] + events[1..];
    }
  }

  // ----- runs ------------------------------------------------------------------------------------------

  /** The cells held down after some events; None when a held key is pressed again or a free
      key is released. */
  function Held(events: seq<Event>): Option<set<Cell>> {
    if events == [] then Some({}) else
      var e := events[|events| - 1];
      match Held(events[..|events| - 1])
      case None => None
      case Some(held) =>
        if e.press then (if e.cell in held then None else Some(held + {e.cell}))
        else if e.cell in held then Some(held - {e.cell}) else None
  }

  /** No key is pressed twice or released while up, and none stays down. */
  predicate Balanced(events: seq<Event>) { Held(events) == Some({}) }

  predicate ReleasedAt(events: seq<Event>, i: nat, j: nat) {
    i < j < |events| && !events[j].press && events[j].cell == events[i].cell
    && forall k | i < k < j :: events[k].cell != events[i].cell
  }

  lemma {:induction false} ReleasedOrHeld(events: seq<Event>, n: nat, i: nat)
    requires i < n <= |events| && Held(events[..n]).Some? && events[i].press
    ensures (exists j: nat :: j < n && ReleasedAt(events, i, j))
      || (events[i].cell in Held(events[..n]).value && forall k | i < k < n :: events[k].cell != events[i].cell)
  {
    assert events[..n][..n - 1] == events[..n - 1] && events[..n][n - 1] == events[n - 1];
    if i < n - 1 {
      ReleasedOrHeld(events, n - 1, i);
      if !(exists j: nat :: j < n - 1 && ReleasedAt(events, i, j)) && events[n - 1].cell == events[i].cell {
        assert ReleasedAt(events, i, n - 1);
      }
    }
  }

  /** In a balanced run every press has exactly one release, with nothing on that key between. */
  lemma PressIsReleased(events: seq<Event>, i: nat)
    requires Balanced(events) && i < |events| && events[i].press
    ensures exists j: nat :: ReleasedAt(events, i, j)
    ensures forall j: nat, k: nat :: ReleasedAt(events, i, j) && ReleasedAt(events, i, k) ==> j == k
  {
    assert events[..|events|] == events;
    ReleasedOrHeld(events, |events|, i);
  }

  // ----- the keymap ------------------------------------------------------------------------------------

  /** Actions by coordinate text. */
  type Layer = map<string, string>

  /** Parsing outside this model: the cell of a coordinate, and int() of a text. */
  datatype Reading = Reading(cell: string -> Cell, integer: string -> Option<int>)

  function Code(keycodes: map<string, int>, action: string): Option<int> {
    if action in keycodes then Some(keycodes[action]) else None
  }

  predicate IsSupported(keycodes: map<string, int>, action: string) {
    match Code(keycodes, action)
    case None => false
    case Some(code) => code == 0 || 0 < code < 0xE0 || 0xE0 <= code <= 0xE7
  }

  predicate IsModifier(keycodes: map<string, int>, action: string) {
    match Code(keycodes, action) case None => false case Some(code) => 0xE0 <= code <= 0xE7
  }

  predicate IsNormal(keycodes: map<string, int>, action: string) {
    match Code(keycodes, action) case None => false case Some(code) => 0 < code < 0xE0
  }

  /** Every supported key that is not code 0 is a modifier or a normal key, and never both. */
  lemma KeyKinds(keycodes: map<string, int>, action: string)
    ensures IsSupported(keycodes, action) && Code(keycodes, action) != Some(0)
      <==> IsNormal(keycodes, action) || IsModifier(keycodes, action)
    ensures !(IsNormal(keycodes, action) && IsModifier(keycodes, action))
  {
  }

  datatype LayerOp = MO | TG | TO | DF | OSL

  function Opening(op: LayerOp): string {
    match op case MO => "MO(" case TG => "TG(" case TO => "TO(" case DF => "DF(" case OSL => "OSL("
  }

  function OpOf(action: string): Option<LayerOp> {
    if "MO(" <= action then Some(MO) else if "TG(" <= action then Some(TG) else if "TO(" <= action then Some(TO)
    else if "DF(" <= action then Some(DF) else if "OSL(" <= action then Some(OSL) else None
  }

  /** parse_layer_action */
  function LayerAction(reading: Reading, action: string): Option<(LayerOp, int)> {
    if action == "" || action[|action| - 1] != ')' then None
    else match OpOf(action)
      case None => None
      case Some(op) =>
        var inner := action[|Opening(op)|..|action| - 1];
        match reading.integer(inner) case Some(n) => Some((op, n)) case None => None
  }

  function SortedCoords(layer: Layer): (coords: seq<string>)
    ensures (forall c :: c in coords <==> c in layer) && Increasing(StringLess, coords)
  {
    StringOrder();
    Sorted(StringLess, layer.Keys)
  }

  // ----- the sequences -----------------------------------------------------------------------------------

  datatype Sequence = Sequence(events: string, actions: seq<string>)

  /** A tap of one key, a second key tapped while the first is held, or a layer key and a key of
      its layer. */
  datatype RunKind = Tap | Chord | OfLayer(op: LayerOp)

  /** What a sequence is made of. */
  datatype Run = Run(kind: RunKind, first: Cell, second: Cell, actions: seq<string>) {
    function Events(): seq<Event> {
      match kind
      case Tap => TapOf(first)
      case Chord => ChordOf(first, second)
      case OfLayer(op) => LayerRun(op, first, second)
    }

    /** The first key is held while the second is tapped. */
    predicate Holds() { kind == Chord || kind == OfLayer(MO) }

    predicate IsInRange() { InRange(first) && InRange(second) }
  }

  function Press(cell: Cell): Event { Event(true, cell) }

  function Release(cell: Cell): Event { Event(false, cell) }

  function TapOf(cell: Cell): seq<Event> { [Press(cell), Release(cell)] }

  /** The second key while the first is held. */
  function ChordOf(a: Cell, b: Cell): seq<Event> { [Press(a), Press(b), Release(b), Release(a)] }

  /** What a layer key and a key of its layer do, by the kind of layer key. */
  function LayerRun(op: LayerOp, a: Cell, b: Cell): seq<Event> {
    match op
    case MO => ChordOf(a, b)
    case TG => TapOf(a) + TapOf(b) + TapOf(a)
    case _ => TapOf(a) + TapOf(b)
  }

  lemma HeldMore(events: seq<Event>, e: Event)
    ensures Held(events + [e]) == match Held(events)
      case None => None
      case Some(held) =>
        if e.press then (if e.cell in held then None else Some(held + {e.cell}))
        else if e.cell in held then Some(held - {e.cell}) else None
  {
  }

  /** A tap leaves held what was held. */
  lemma TapKeeps(events: seq<Event>, cell: Cell)
    requires Held(events).Some? && cell !in Held(events).value
    ensures Held(events + TapOf(cell)) == Held(events)
  {
    hide Held;
    HeldMore(events, Press(cell));
    HeldMore(events + [Press(cell)], Release(cell));
    assert events + TapOf(cell) == events + [Press(cell)] + [Release(cell)];
    assert Held(events).value + {cell} - {cell} == Held(events).value;
  }

  lemma NothingHeld()
    ensures Held([]) == Some({})
  {
  }

  /** A run presses no key twice and ends with nothing pressed, unless it holds a key and taps
      the same one. */
  lemma RunIsBalanced(run: Run)
    ensures Balanced(run.Events()) <==> run.Holds() ==> run.first != run.second
  {
    hide Held;
    var a, b := run.first, run.second;
    NothingHeld();
    TapKeeps([], a);
    assert [] + TapOf(a) == TapOf(a);
    TapKeeps(TapOf(a), b);
    TapKeeps(TapOf(a) + TapOf(b), a);
    HeldMore([], Press(a));
    assert [] + [Press(a)] == [Press(a)];
    if a != b {
      TapKeeps([Press(a)], b);
      HeldMore([Press(a)] + TapOf(b), Release(a));
      assert ChordOf(a, b) == [Press(a)] + TapOf(b) + [Release(a)];
      assert {} + {a} - {a} == {};
    } else {
      HeldMore([Press(a)], Press(b));
      HeldMore([Press(a)] + [Press(b)], Release(b));
      HeldMore([Press(a)] + [Press(b)] + [Release(b)], Release(a));
      assert ChordOf(a, b) == [Press(a)] + [Press(b)] + [Release(b)] + [Release(a)];
    }
  }

  function Select(coords: seq<string>, wanted: string -> bool): (selected: seq<string>)
    ensures forall c :: c in selected <==> c in coords && wanted(c)
  {
    if coords == [] then [] else (if wanted(coords[0]) then [coords[0]] else []) + Select(coords[1..], wanted)
  }

  /** list[:n], where a negative n counts from the end. */
  function Take<T>(s: seq<T>, n: int): seq<T> {
    if n >= |s| then s else if n >= 0 then s[..n] else if |s| + n >= 0 then s[..|s| + n] else []
  }

  predicate IsTapped(keycodes: map<string, int>, action: string) {
    IsSupported(keycodes, action) && Code(keycodes, action) != Some(0)
  }

  function Tapped(base: Layer, keycodes: map<string, int>): seq<string> {
    Select(SortedCoords(base), c => c in base && IsTapped(keycodes, base[c]))
  }

  /** Coordinates in the order of their text that are normal keys, but for the layer key itself. */
  function Targets(layer: Layer, keycodes: map<string, int>, source: string): seq<string> {
    Select(SortedCoords(layer), c => c in layer && c != source && IsNormal(keycodes, layer[c]))
  }

  /** layers[n]; the outer None is an exception, the inner one no such layer. */
  function LayerAt(layers: seq<Layer>, n: int): Option<Option<Layer>> {
    if n >= |layers| then Some(None) else if n >= 0 then Some(Some(layers[n]))
    else if |layers| + n >= 0 then Some(Some(layers[|layers| + n])) else None
  }

  ghost predicate CellsInRange(reading: Reading, layers: seq<Layer>) {
    forall m, a | m in layers && a in m :: InRange(reading.cell(a))
  }

  /** Every layer action of the base names a layer that exists or lies beyond the last. */
  ghost predicate LayersInRange(reading: Reading, layers: seq<Layer>) {
    layers != [] ==> forall c <- layers[0] ::
      var action := LayerAction(reading, layers[0][c]); action.Some? ==> action.value.1 >= -|layers|
  }

  function Normal(base: Layer, keycodes: map<string, int>, coords: seq<string>): seq<string> {
    Select(coords, c => c in base && IsNormal(keycodes, base[c]))
  }

  function Modifiers(base: Layer, keycodes: map<string, int>, coords: seq<string>): seq<string> {
    Select(coords, c => c in base && IsModifier(keycodes, base[c]))
  }

  function TapRun(reading: Reading, base: Layer, c: string): Run
    requires c in base
  {
    Run(Tap, reading.cell(c), reading.cell(c), [base[c]])
  }

  /** One tap for each key, in order. */
  function TapRuns(reading: Reading, base: Layer, coords: seq<string>): (runs: seq<Run>)
    requires forall c | c in coords :: c in base
    ensures |runs| == |coords|
  {
    seq(|coords|, k requires 0 <= k < |coords| => TapRun(reading, base, coords[k]))
  }

  /** The first modifier held around the first normal key, if there are both. */
  function ChordRuns(reading: Reading, base: Layer, keycodes: map<string, int>, tapped: seq<string>): seq<Run> {
    var normal, modifiers := Normal(base, keycodes, tapped), Modifiers(base, keycodes, tapped);
    if normal == [] || modifiers == [] then [] else
      assert modifiers[0] in modifiers && normal[0] in normal;
      [Run(Chord, reading.cell(modifiers[0]), reading.cell(normal[0]), [base[modifiers[0]], base[normal[0]]])]
  }

  /** The run of a layer key and the first normal key of its layer; None is an exception. */
  function LayerRuns(reading: Reading, layers: seq<Layer>, keycodes: map<string, int>, c: string): Option<seq<Run>>
    requires layers != [] && c in layers[0]
  {
    match LayerAction(reading, layers[0][c])
    case None => Some([])
    case Some((op, n)) =>
      match LayerAt(layers, n)
      case None => None
      case Some(None) => Some([])
      case Some(Some(layer)) =>
        var targets := Targets(layer, keycodes, c);
        if targets == [] then Some([]) else
          assert targets[0] in targets;
          Some([Run(OfLayer(op), reading.cell(c), reading.cell(targets[0]), [layers[0][c], layer[targets[0]]])])
  }

  function AllLayerRuns(reading: Reading, layers: seq<Layer>, keycodes: map<string, int>,
                        sources: seq<string>, n: nat): Option<seq<Run>>
    requires n <= |sources| && (sources != [] ==> layers != []) && forall c | c in sources :: c in layers[0]
  {
    if n == 0 then Some([])
    else
      Both(AllLayerRuns(reading, layers, keycodes, sources, n - 1),
        LayerRuns(reading, layers, keycodes, sources[n - 1]))
  }

  function Base(layers: seq<Layer>): Layer { if layers == [] then map[] else layers[0] }

  /** The runs of all sequences: taps of the first supported keys, a chord, and one run for each
      layer key in the order of the coordinates. */
  function Runs(reading: Reading, layers: seq<Layer>, keycodes: map<string, int>, maxBasic: int): Option<seq<Run>> {
    var base := Base(layers);
    var tapped, sources := Tapped(base, keycodes), SortedCoords(base);
    TapsAreKeys(base, keycodes, maxBasic);
    match AllLayerRuns(reading, layers, keycodes, sources, |sources|)
    case None => None
    case Some(ofLayers) =>
      Some(TapRuns(reading, base, Take(tapped, maxBasic)) + ChordRuns(reading, base, keycodes, tapped) + ofLayers)
  }

  /** The packets of the runs. */
  ghost predicate IsEncoded(sequences: seq<Sequence>, runs: seq<Run>) {
    |sequences| == |runs| && forall k | 0 <= k < |runs| :: EncodesRun(sequences[k], runs[k])
  }

  ghost predicate EncodesRun(s: Sequence, run: Run) {
    run.IsInRange() && s.actions == run.actions && s.events == Packets(run.Events())
  }

  /** What is returned for some runs: their sequences, or nothing where generating them raises. */
  ghost predicate Answers(result: Option<seq<Sequence>>, runs: Option<seq<Run>>) {
    if runs.Some? && AllInRange(runs.value) then result.Some? && IsEncoded(result.value, runs.value) else result == None
  }

  ghost predicate AllInRange(runs: seq<Run>) { forall run | run in runs :: run.IsInRange() }

  lemma EventsInRange(run: Run)
    ensures (forall e | e in run.Events() :: InRange(e.cell))
      <==> run.IsInRange() || (run.kind == Tap && InRange(run.first))
  {
    assert Press(run.first) in run.Events();
    if run.kind != Tap { assert Press(run.second) in run.Events(); }
  }

  /** The packets of a run; None is a coordinate out of range. */
  method MakeSequence(run: Run) returns (s: Option<Sequence>)
    requires run.kind == Tap ==> run.first == run.second
    ensures if run.IsInRange() then s.Some? && EncodesRun(s.value, run) else s == None
  {
    var events := run.Events();
    EventsInRange(run);
    for i := 0 to |events|
      invariant forall j | 0 <= j < i :: InRange(events[j].cell)
    {
      if !InRange(events[i].cell) { return None; }
    }
    return Some(Sequence(Packets(events), run.actions));
  }

  lemma EncodedTogether(a: seq<Sequence>, runs: seq<Run>, b: seq<Sequence>, more: seq<Run>)
    requires IsEncoded(a, runs) && IsEncoded(b, more)
    ensures IsEncoded(a + b, runs + more)
  {
    hide EncodesRun;
  }

  lemma InRangeTogether(runs: seq<Run>, more: seq<Run>)
    ensures AllInRange(runs + more) <==> AllInRange(runs) && AllInRange(more)
  {
    assert forall run | run in runs :: run in runs + more;
    assert forall run | run in more :: run in runs + more;
  }

  /** One tap for each of the first supported keys. */
  method TapSequences(reading: Reading, base: Layer, coords: seq<string>) returns (result: Option<seq<Sequence>>)
    requires forall c | c in coords :: c in base
    ensures Answers(result, Some(TapRuns(reading, base, coords)))
  {
    hide EncodesRun;
    var sequences: seq<Sequence> := [];
    ghost var runs := TapRuns(reading, base, coords);
    for k := 0 to |coords|
      invariant IsEncoded(sequences, runs[..k]) && AllInRange(runs[..k])
    {
      assert runs[k] == TapRun(reading, base, coords[k]) && runs[k] in runs;
      var s := MakeSequence(TapRun(reading, base, coords[k]));
      if s == None { return None; }
      assert runs[..k + 1] == runs[..k] + [runs[k]];
      sequences := sequences + [s.value];
    }
    assert runs[..|coords|] == runs;
    return Some(sequences);
  }

  /** A modifier held around a normal key, if there are both. */
  method ChordSequence(reading: Reading, base: Layer, keycodes: map<string, int>, tapped: seq<string>)
    returns (result: Option<seq<Sequence>>)
    ensures Answers(result, Some(ChordRuns(reading, base, keycodes, tapped)))
  {
    hide EncodesRun, IsNormal, IsModifier;
    var normal, modifiers := Normal(base, keycodes, tapped), Modifiers(base, keycodes, tapped);
    if modifiers == [] || normal == [] { return Some([]); }
    var modifier, key := modifiers[0], normal[0];
    assert modifier in modifiers && key in normal;
    var s := MakeSequence(Run(Chord, reading.cell(modifier), reading.cell(key), [base[modifier], base[key]]));
    if s == None { return None; }
    return Some([s.value]);
  }

  /** The run for one layer key; nothing when the action is none or the layer has no target. */
  method LayerSequence(reading: Reading, layers: seq<Layer>, keycodes: map<string, int>, c: string)
    returns (result: Option<seq<Sequence>>)
    requires layers != [] && c in layers[0]
    ensures Answers(result, LayerRuns(reading, layers, keycodes, c))
  {
    hide EncodesRun, LayerAction, IsNormal, Select, SortedCoords;
    var action := LayerAction(reading, layers[0][c]);
    if action == None { return Some([]); }
    var (op, n) := action.value;
    var layer := LayerAt(layers, n);
    if layer == None { return None; }
    if layer.value == None { return Some([]); }
    var targets := Targets(layer.value.value, keycodes, c);
    if targets == [] { return Some([]); }
    var target := targets[0];
    TargetIsOther(layer.value.value, keycodes, c, target);
    var s := MakeSequence(Run(OfLayer(op), reading.cell(c), reading.cell(target),
      [layers[0][c], layer.value.value[target]]));
    if s == None { return None; }
    return Some([s.value]);
  }

  lemma TargetIsOther(layer: Layer, keycodes: map<string, int>, source: string, target: string)
    requires target in Targets(layer, keycodes, source)
    ensures target in layer && target != source && IsNormal(keycodes, layer[target])
  {
  }

  lemma AnswersTogether(a: Option<seq<Sequence>>, runs: Option<seq<Run>>,
                        b: Option<seq<Sequence>>, more: Option<seq<Run>>)
    requires Answers(a, runs) && Answers(b, more)
    ensures Answers(Both(a, b), Both(runs, more))
  {
    hide IsEncoded, AllInRange;
    if runs.Some? && more.Some? {
      InRangeTogether(runs.value, more.value);
      if a.Some? && b.Some? { EncodedTogether(a.value, runs.value, b.value, more.value); }
    }
  }

  function Both<T>(a: Option<seq<T>>, b: Option<seq<T>>): Option<seq<T>> {
    if a.Some? && b.Some? then Some(a.value + b.value) else None
  }

  /** The loop over the layer keys. */
  method LayerSequences(reading: Reading, layers: seq<Layer>, keycodes: map<string, int>, sources: seq<string>)
    returns (result: Option<seq<Sequence>>)
    requires (sources != [] ==> layers != []) && forall c | c in sources :: c in layers[0]
    ensures Answers(result, AllLayerRuns(reading, layers, keycodes, sources, |sources|))
  {
    hide LayerRuns, Answers;
    var sequences: seq<Sequence> := [];
    NothingAnswered();
    for i := 0 to |sources|
      invariant Answers(Some(sequences), AllLayerRuns(reading, layers, keycodes, sources, i))
    {
      assert sources[i] in sources;
      var added := LayerSequence(reading, layers, keycodes, sources[i]);
      ghost var before := AllLayerRuns(reading, layers, keycodes, sources, i);
      AnswersTogether(Some(sequences), before, added, LayerRuns(reading, layers, keycodes, sources[i]));
      assert AllLayerRuns(reading, layers, keycodes, sources, i + 1)
        == Both(before, LayerRuns(reading, layers, keycodes, sources[i]));
      if added == None {
        RaisedStays(reading, layers, keycodes, sources, i + 1);
        return None;
      }
      sequences := sequences + added.value;
    }
    return Some(sequences);
  }

  lemma NothingAnswered()
    ensures Answers(Some([]), Some([]))
  {
  }

  lemma RaisedStays(reading: Reading, layers: seq<Layer>, keycodes: map<string, int>, sources: seq<string>, n: nat)
    requires n <= |sources| && (sources != [] ==> layers != []) && forall c | c in sources :: c in layers[0]
    requires Answers(None, AllLayerRuns(reading, layers, keycodes, sources, n))
    ensures Answers(None, AllLayerRuns(reading, layers, keycodes, sources, |sources|))
  {
    hide AllLayerRuns;
    RunsStay(reading, layers, keycodes, sources, n, |sources|);
    var early, late := AllLayerRuns(reading, layers, keycodes, sources, n),
      AllLayerRuns(reading, layers, keycodes, sources, |sources|);
    if late.Some? { PartInRange([], early.value, late.value); }
    assert forall runs: seq<Run> :: [] + runs == runs;
  }

  /** build_sequences; None is an exception: a layer out of range, or a cell.  Otherwise the
      sequences are the packets of the runs, one for one. */
  method BuildSequences(reading: Reading, layers: seq<Layer>, keycodes: map<string, int>, maxBasic: int)
    returns (result: Option<seq<Sequence>>)
    ensures Answers(result, Runs(reading, layers, keycodes, maxBasic))
  {
    hide AllLayerRuns, TapRuns, ChordRuns, Tapped, SortedCoords, Take, Answers;
    var base := Base(layers);
    var tapped, sources := Tapped(base, keycodes), SortedCoords(base);
    TapsAreKeys(base, keycodes, maxBasic);
    SourcesAreKeys(base);
    assert sources != [] ==> sources[0] in sources;
    var coords := Take(tapped, maxBasic);
    var taps := TapSequences(reading, base, coords);
    var chord := ChordSequence(reading, base, keycodes, tapped);
    var ofLayers := LayerSequences(reading, layers, keycodes, sources);
    ghost var tapRuns, chordRuns := Some(TapRuns(reading, base, coords)),
      Some(ChordRuns(reading, base, keycodes, tapped));
    AnswersTogether(taps, tapRuns, chord, chordRuns);
    AnswersTogether(Both(taps, chord), Both(tapRuns, chordRuns), ofLayers,
      AllLayerRuns(reading, layers, keycodes, sources, |sources|));
    return Both(Both(taps, chord), ofLayers);
  }

  lemma {:induction false} RunsStay(reading: Reading, layers: seq<Layer>, keycodes: map<string, int>,
                                    sources: seq<string>, n: nat, m: nat)
    requires n <= m <= |sources| && (sources != [] ==> layers != []) && forall c | c in sources :: c in layers[0]
    ensures var early, late := AllLayerRuns(reading, layers, keycodes, sources, n),
      AllLayerRuns(reading, layers, keycodes, sources, m);
      late.Some? ==> early.Some? && early.value <= late.value
  {
    hide LayerRuns;
    if n < m { RunsStay(reading, layers, keycodes, sources, n, m - 1); }
  }

  lemma PartInRange(front: seq<Run>, part: seq<Run>, all: seq<Run>)
    requires part <= all
    ensures AllInRange(front + all) ==> AllInRange(front + part)
  {
    assert all == part + all[|part|..];
    InRangeTogether(front, all);
    InRangeTogether(part, all[|part|..]);
    InRangeTogether(front, part);
  }

  lemma SourcesAreKeys(base: Layer)
    ensures forall c | c in SortedCoords(base) :: c in base
  {
  }

  lemma TapsAreKeys(base: Layer, keycodes: map<string, int>, n: int)
    ensures forall c | c in Tapped(base, keycodes) :: c in base
    ensures forall c | c in Take(Tapped(base, keycodes), n) :: c in base
  {
  }

  // ----- what the sequences promise ----------------------------------------------------------------------

  /** Every generated stream reads back as its run, and ends with nothing pressed unless the run
      holds a key while it taps the same cell. */
  lemma SequencesReplay(sequences: seq<Sequence>, runs: seq<Run>, k: nat)
    requires IsEncoded(sequences, runs) && k < |runs|
    ensures Stream(sequences[k].events) == Some(runs[k].Events())
    ensures Balanced(runs[k].Events()) <==> runs[k].Holds() ==> runs[k].first != runs[k].second
  {
    EventsInRange(runs[k]);
    PacketsRead(runs[k].Events());
    RunIsBalanced(runs[k]);
  }

  ghost predicate DistinctCells(reading: Reading, layers: seq<Layer>) {
    forall m, n, a, b | m in layers && n in layers && a in m && b in n && a != b :: reading.cell(a) != reading.cell(b)
  }

  /** When different coordinate texts name different cells, no run holds and taps the same one. */
  lemma HeldIsNotTapped(reading: Reading, layers: seq<Layer>, keycodes: map<string, int>, maxBasic: int, run: Run)
    requires DistinctCells(reading, layers) && Runs(reading, layers, keycodes, maxBasic).Some?
    requires run in Runs(reading, layers, keycodes, maxBasic).value && run.Holds()
    ensures run.first != run.second
  {
    hide Take, Tapped, SortedCoords, LayerAction, Normal, Modifiers;
    var base := Base(layers);
    TapsAreKeys(base, keycodes, maxBasic);
    SourcesAreKeys(base);
    if run in ChordRuns(reading, base, keycodes, Tapped(base, keycodes)) {
      ChordCells(reading, layers, keycodes, Tapped(base, keycodes), run);
    } else if run !in TapRuns(reading, base, Take(Tapped(base, keycodes), maxBasic)) {
      assert SortedCoords(base) != [] ==> SortedCoords(base)[0] in SortedCoords(base);
      LayerCells(reading, layers, keycodes, SortedCoords(base), |SortedCoords(base)|, run);
    }
  }

  lemma ChordCells(reading: Reading, layers: seq<Layer>, keycodes: map<string, int>, tapped: seq<string>, run: Run)
    requires DistinctCells(reading, layers) && run in ChordRuns(reading, Base(layers), keycodes, tapped)
    ensures run.first != run.second
  {
    var base := Base(layers);
    var modifier, key := Modifiers(base, keycodes, tapped)[0], Normal(base, keycodes, tapped)[0];
    assert modifier in Modifiers(base, keycodes, tapped) && key in Normal(base, keycodes, tapped);
    KeyKinds(keycodes, base[modifier]);
    assert layers != [] && base in layers;
  }

  lemma {:induction false} LayerCells(reading: Reading, layers: seq<Layer>, keycodes: map<string, int>,
                                      sources: seq<string>, n: nat, run: Run)
    requires n <= |sources| && (sources != [] ==> layers != []) && forall c | c in sources :: c in layers[0]
    requires DistinctCells(reading, layers) && AllLayerRuns(reading, layers, keycodes, sources, n).Some?
    requires run in AllLayerRuns(reading, layers, keycodes, sources, n).value
    ensures run.first != run.second
  {
    hide LayerAction, Targets;
    assert n > 0;
    var c := sources[n - 1];
    if run in AllLayerRuns(reading, layers, keycodes, sources, n - 1).value {
      LayerCells(reading, layers, keycodes, sources, n - 1, run);
    } else {
      var layer := LayerAt(layers, LayerAction(reading, layers[0][c]).value.1).value.value;
      TargetIsOther(layer, keycodes, c, Targets(layer, keycodes, c)[0]);
      assert layers[0] in layers && layer in layers;
    }
  }

  /** The chord of a keymap presses a cell twice exactly if its modifier and its normal key are
      texts for one cell. */
  lemma ChordIsBalanced(reading: Reading, base: Layer, keycodes: map<string, int>, tapped: seq<string>)
    ensures var normal, modifiers := Normal(base, keycodes, tapped), Modifiers(base, keycodes, tapped);
      (forall run | run in ChordRuns(reading, base, keycodes, tapped) :: Balanced(run.Events()))
      <==> (normal != [] && modifiers != [] ==> reading.cell(modifiers[0]) != reading.cell(normal[0]))
  {
    var runs := ChordRuns(reading, base, keycodes, tapped);
    if runs != [] {
      RunIsBalanced(runs[0]);
      assert runs[0] in runs;
    }
  }

  const SHIFT_AND_A: map<string, int> := map["KC_LSFT" := 0xE1, "KC_A" := 4]

  /** A keymap that has such a chord: two texts for one cell, one a modifier and one a letter. */
  lemma SameCellPressedTwice(reading: Reading, a: string, b: string, maxBasic: int)
    requires a != b && reading.cell(a) == reading.cell(b) && InRange(reading.cell(a))
    ensures var runs := Runs(reading, [map[a := "KC_LSFT", b := "KC_A"]], SHIFT_AND_A, maxBasic);
      runs.Some? && AllInRange(runs.value) && exists run :: run in runs.value && !Balanced(run.Events())
  {
    hide Select, SortedCoords, Runs, ChordRuns, Balanced, AllInRange;
    var base: Layer := map[a := "KC_LSFT", b := "KC_A"];
    var tapped := Tapped(base, SHIFT_AND_A);
    ShiftAndA(a, b);
    PlainKeymap(reading, base);
    NothingRaises(reading, [base], SHIFT_AND_A, maxBasic);
    ChordIsBalanced(reading, base, SHIFT_AND_A, tapped);
    var run :| run in ChordRuns(reading, base, SHIFT_AND_A, tapped) && !Balanced(run.Events());
    ChordIsRun(reading, [base], SHIFT_AND_A, maxBasic, run);
  }

  lemma ShiftAndA(a: string, b: string)
    requires a != b
    ensures var base: Layer := map[a := "KC_LSFT", b := "KC_A"];
      var tapped := Tapped(base, SHIFT_AND_A);
      var modifiers, normal := Modifiers(base, SHIFT_AND_A, tapped), Normal(base, SHIFT_AND_A, tapped);
      modifiers != [] && modifiers[0] == a && normal != [] && normal[0] == b
  {
    hide Select, SortedCoords;
    var base: Layer := map[a := "KC_LSFT", b := "KC_A"];
    var tapped := Tapped(base, SHIFT_AND_A);
    var modifiers, normal := Modifiers(base, SHIFT_AND_A, tapped), Normal(base, SHIFT_AND_A, tapped);
    assert a in SortedCoords(base) && b in SortedCoords(base);
    assert a in tapped && b in tapped;
    assert a in modifiers && b in normal;
    assert modifiers[0] in modifiers && normal[0] in normal;
  }

  /** Keys without a closing parenthesis are no layer keys. */
  lemma PlainKeymap(reading: Reading, base: Layer)
    requires forall c <- base :: base[c] == "" || base[c][|base[c]| - 1] != ')'
    ensures LayersInRange(reading, [base])
    ensures (forall c <- base :: InRange(reading.cell(c))) ==> CellsInRange(reading, [base])
  {
  }

  lemma ChordIsRun(reading: Reading, layers: seq<Layer>, keycodes: map<string, int>, maxBasic: int, run: Run)
    requires Runs(reading, layers, keycodes, maxBasic).Some?
    requires run in ChordRuns(reading, Base(layers), keycodes, Tapped(Base(layers), keycodes))
    ensures run in Runs(reading, layers, keycodes, maxBasic).value
  {
    hide Tapped, ChordRuns, AllLayerRuns, Take, SortedCoords;
  }

  /** With all cells and layers in range nothing raises. */
  lemma NothingRaises(reading: Reading, layers: seq<Layer>, keycodes: map<string, int>, maxBasic: int)
    requires CellsInRange(reading, layers) && LayersInRange(reading, layers)
    ensures Runs(reading, layers, keycodes, maxBasic).Some?
      && AllInRange(Runs(reading, layers, keycodes, maxBasic).value)
  {
    hide Take, Tapped, SortedCoords, LayerAction, Normal, Modifiers, AllLayerRuns;
    var base := Base(layers);
    TapsAreKeys(base, keycodes, maxBasic);
    SourcesAreKeys(base);
    assert layers != [] ==> base in layers;
    assert SortedCoords(base) != [] ==> SortedCoords(base)[0] in SortedCoords(base);
    LayersRaiseNothing(reading, layers, keycodes, SortedCoords(base), |SortedCoords(base)|);
    ChordInRange(reading, layers, keycodes, Tapped(base, keycodes));
  }

  lemma ChordInRange(reading: Reading, layers: seq<Layer>, keycodes: map<string, int>, tapped: seq<string>)
    requires CellsInRange(reading, layers)
    ensures AllInRange(ChordRuns(reading, Base(layers), keycodes, tapped))
  {
    var base := Base(layers);
    var normal, modifiers := Normal(base, keycodes, tapped), Modifiers(base, keycodes, tapped);
    assert normal != [] ==> normal[0] in normal;
    assert modifiers != [] ==> modifiers[0] in modifiers;
    assert layers != [] ==> base in layers;
  }

  lemma {:induction false} LayersRaiseNothing(reading: Reading, layers: seq<Layer>, keycodes: map<string, int>,
                                              sources: seq<string>, n: nat)
    requires n <= |sources| && (sources != [] ==> layers != []) && forall c | c in sources :: c in layers[0]
    requires CellsInRange(reading, layers) && LayersInRange(reading, layers)
    ensures AllLayerRuns(reading, layers, keycodes, sources, n).Some?
    ensures AllInRange(AllLayerRuns(reading, layers, keycodes, sources, n).value)
  {
    hide LayerAction, Targets;
    if n > 0 {
      LayersRaiseNothing(reading, layers, keycodes, sources, n - 1);
      LayerRaisesNothing(reading, layers, keycodes, sources[n - 1]);
      InRangeTogether(AllLayerRuns(reading, layers, keycodes, sources, n - 1).value,
        LayerRuns(reading, layers, keycodes, sources[n - 1]).value);
    }
  }

  lemma LayerRaisesNothing(reading: Reading, layers: seq<Layer>, keycodes: map<string, int>, c: string)
    requires layers != [] && c in layers[0] && CellsInRange(reading, layers) && LayersInRange(reading, layers)
    ensures LayerRuns(reading, layers, keycodes, c).Some? && AllInRange(LayerRuns(reading, layers, keycodes, c).value)
  {
    hide LayerAction, Targets;
    assert layers[0] in layers;
    match LayerAction(reading, layers[0][c])
    case None =>
    case Some((op, n)) =>
      if LayerAt(layers, n).value.Some? {
        var layer := LayerAt(layers, n).value.value;
        var targets := Targets(layer, keycodes, c);
        assert layer in layers;
        if targets != [] { TargetIsOther(layer, keycodes, c, targets[0]); }
      }
  }
}
