/** The order of the remaps of a .vil document: layer by layer, row by row, value by value, each
    that names an action once; and the fields by which an export is recognised. */
module VilOrder {
  import opened Options
  import opened VilLayout

  /** A value of the document: its layer, its row or encoder, and its place in that. */
  type Spot = (nat, nat, nat)

  predicate SpotLess(a: Spot, b: Spot) {
    a.0 < b.0 || (a.0 == b.0 && (a.1 < b.1 || (a.1 == b.1 && a.2 < b.2)))
  }

  /** The remap of the value at a spot of the layout. */
  function OfLayout(codec: Codec, layout: seq<Json>, rows: nat, cols: nat, s: Spot): Option<Remap> {
    if s.0 < |layout| && s.1 < rows && s.2 < cols then OfCell(codec, Cell(layout[s.0], s.1, s.2), s, s.1, s.2) else None
  }

  /** The remap of the value at a spot of the encoder layout. */
  function OfTurns(codec: Codec, turns: seq<Json>, encoders: seq<Encoder>, s: Spot): Option<Remap> {
    if s.0 < |turns| && s.1 < |encoders| && s.2 < 2
    then OfCell(codec, Cell(turns[s.0], s.1, s.2), s,
      if s.2 == 0 then encoders[s.1].0.0 else encoders[s.1].1.0,
      if s.2 == 0 then encoders[s.1].0.1 else encoders[s.1].1.1)
    else None
  }

  function OfCell(codec: Codec, cell: Option<Json>, s: Spot, row: int, col: int): Option<Remap> {
    match cell
    case None => None
    case Some(raw) =>
      match Decoded(codec, raw)
      case None => None
      case Some(action) => Some(Remap(s.0, row, col, action))
  }

  /** The remaps are those of the spots that have one, each once and in order. */
  ghost predicate InTurn(remaps: seq<Remap>, spots: seq<Spot>, of: Spot -> Option<Remap>, within: iset<Spot>) {
    && |remaps| == |spots| && (forall i | 0 <= i < |spots| :: of(spots[i]) == Some(remaps[i]))
    && (forall i, j | 0 <= i < j < |spots| :: SpotLess(spots[i], spots[j]))
    && (forall s :: s in spots <==> s in within && of(s).Some?)
  }

  lemma Nothing(of: Spot -> Option<Remap>, within: iset<Spot>)
    requires forall s | s in within :: of(s) == None
    ensures InTurn([], [], of, within)
  {
  }

  lemma OneOrNone(of: Spot -> Option<Remap>, s: Spot) returns (spots: seq<Spot>)
    ensures InTurn(if of(s).Some? then [of(s).value] else [], spots, of, iset{s})
  {
    spots := if of(s).Some? then [s] else [];
  }

  /** What is in turn before and after is in turn together. */
  lemma Together(a: seq<Remap>, b: seq<Remap>, left: seq<Spot>, right: seq<Spot>, of: Spot -> Option<Remap>,
                 before: iset<Spot>, after: iset<Spot>)
    requires InTurn(a, left, of, before) && InTurn(b, right, of, after)
    requires forall s, t | s in before && t in after :: SpotLess(s, t)
    ensures InTurn(a + b, left + right, of, before + after)
  {
    hide SpotLess;
    var spots := left + right;
    forall i, j | 0 <= i < j < |spots|
      ensures SpotLess(spots[i], spots[j])
    {
      if i < |left| <= j {
        assert left[i] in left && right[j - |left|] in right;
      }
    }
    assert forall s :: s in spots <==> s in left || s in right;
  }

  lemma {:induction false} RowInTurn(codec: Codec, layout: seq<Json>, rows: nat, cols: nat, l: nat, row: nat, n: nat)
    returns (spots: seq<Spot>)
    requires l < |layout| && row < rows && n <= cols && layout[l].Items? && row < |layout[l].items|
    requires layout[l].items[row].Items? && n <= |layout[l].items[row].items|
    ensures InTurn(RowRemaps(codec, layout[l].items[row].items, l, row, n), spots,
      s => OfLayout(codec, layout, rows, cols, s), iset s: Spot | s.0 == l && s.1 == row && s.2 < n)
  {
    hide Decoded;
    var of := s => OfLayout(codec, layout, rows, cols, s);
    var values := layout[l].items[row].items;
    if n == 0 {
      Nothing(of, iset s: Spot | s.0 == l && s.1 == row && s.2 < n);
      return [];
    }
    var left := RowInTurn(codec, layout, rows, cols, l, row, n - 1);
    var last := (l, row, n - 1);
    var right := OneOrNone(of, last);
    assert Cell(layout[l], row, n - 1) == Some(values[n - 1]);
    assert ValueRemaps(codec, values[n - 1], l, row, n - 1) == if of(last).Some? then [of(last).value] else [];
    Together(RowRemaps(codec, values, l, row, n - 1), ValueRemaps(codec, values[n - 1], l, row, n - 1), left, right, of,
      iset s: Spot | s.0 == l && s.1 == row && s.2 < n - 1, iset{last});
    assert (iset s: Spot | s.0 == l && s.1 == row && s.2 < n - 1) + iset{last}
      == iset s: Spot | s.0 == l && s.1 == row && s.2 < n;
    return left + right;
  }

  /** Spots without a remap may be added to where one looks. */
  lemma Wider(remaps: seq<Remap>, spots: seq<Spot>, of: Spot -> Option<Remap>, within: iset<Spot>, wide: iset<Spot>)
    requires InTurn(remaps, spots, of, within) && within <= wide
    requires forall s | s in wide && s !in within :: of(s) == None
    ensures InTurn(remaps, spots, of, wide)
  {
  }

  lemma {:induction false} LayerInTurn(codec: Codec, layout: seq<Json>, rows: nat, cols: nat, l: nat, n: nat)
    returns (spots: seq<Spot>)
    requires l < |layout| && layout[l].Items? && n <= rows && n <= |layout[l].items|
    ensures InTurn(LayerRemaps(codec, layout[l].items, l, n, cols), spots,
      s => OfLayout(codec, layout, rows, cols, s), iset s: Spot | s.0 == l && s.1 < n)
  {
    hide Decoded, RowRemaps, SpotLess;
    var of := s => OfLayout(codec, layout, rows, cols, s);
    var all := iset s: Spot | s.0 == l && s.1 < n;
    if n == 0 {
      Nothing(of, all);
      return [];
    }
    var row := n - 1;
    var before := iset s: Spot | s.0 == l && s.1 < row;
    var values := layout[l].items[row];
    var left := LayerInTurn(codec, layout, rows, cols, l, row);
    InOrder(l, row);
    if values.Items? {
      var m := Smaller(|values.items|, cols);
      var these := iset s: Spot | s.0 == l && s.1 == row && s.2 < m;
      var right := RowInTurn(codec, layout, rows, cols, l, row, m);
      Together(LayerRemaps(codec, layout[l].items, l, row, cols), RowRemaps(codec, values.items, l, row, m),
        left, right, of, before, these);
      Wider(LayerRemaps(codec, layout[l].items, l, n, cols), left + right, of, before + these, all);
      return left + right;
    } else {
      var remaps := LayerRemaps(codec, layout[l].items, l, row, cols);
      assert remaps + [] == remaps;
      Wider(remaps, left, of, before, all);
      return left;
    }
  }

  lemma InOrder(l: nat, row: nat)
    ensures forall s: Spot, t: Spot | s.0 == l && s.1 < row && t.0 == l && t.1 == row :: SpotLess(s, t)
    ensures forall s: Spot, t: Spot | s.0 < l && t.0 == l :: SpotLess(s, t)
  {
  }

  lemma {:induction false} LayersInTurn(codec: Codec, layout: seq<Json>, rows: nat, cols: nat, n: nat)
    returns (spots: seq<Spot>)
    requires n <= |layout|
    ensures InTurn(LayoutRemaps(codec, layout, n, rows, cols), spots,
      s => OfLayout(codec, layout, rows, cols, s), iset s: Spot | s.0 < n)
  {
    hide Decoded, LayerRemaps, SpotLess;
    var of := s => OfLayout(codec, layout, rows, cols, s);
    var all := iset s: Spot | s.0 < n;
    if n == 0 {
      Nothing(of, all);
      return [];
    }
    var l := n - 1;
    var before := iset s: Spot | s.0 < l;
    var left := LayersInTurn(codec, layout, rows, cols, l);
    InOrder(l, 0);
    if layout[l].Items? {
      var m := Smaller(|layout[l].items|, rows);
      var these := iset s: Spot | s.0 == l && s.1 < m;
      var right := LayerInTurn(codec, layout, rows, cols, l, m);
      Together(LayoutRemaps(codec, layout, l, rows, cols), LayerRemaps(codec, layout[l].items, l, m, cols), left, right,
        of, before, these);
      Wider(LayoutRemaps(codec, layout, n, rows, cols), left + right, of, before + these, all);
      return left + right;
    } else {
      var remaps := LayoutRemaps(codec, layout, l, rows, cols);
      assert remaps + [] == remaps;
      Wider(remaps, left, of, before, all);
      return left;
    }
  }

  /** The remaps of the layout: of every value in range that names an action, in order. */
  lemma LayoutInTurn(codec: Codec, layout: seq<Json>, rows: nat, cols: nat) returns (spots: seq<Spot>)
    ensures InTurn(LayoutRemaps(codec, layout, |layout|, rows, cols), spots,
      s => OfLayout(codec, layout, rows, cols, s), iset s: Spot | s.0 < |layout|)
    ensures forall s :: s in spots <==> OfLayout(codec, layout, rows, cols, s).Some?
  {
    hide Decoded, LayoutRemaps, SpotLess;
    spots := LayersInTurn(codec, layout, rows, cols, |layout|);
  }

  lemma {:induction false} EncoderInTurn(codec: Codec, turns: seq<Json>, encoders: seq<Encoder>, l: nat, e: nat, n: nat)
    returns (spots: seq<Spot>)
    requires l < |turns| && e < |encoders| && n <= 2 && turns[l].Items? && e < |turns[l].items|
    requires turns[l].items[e].Items? && n <= |turns[l].items[e].items|
    ensures InTurn(EncoderRemaps(codec, turns[l].items[e].items, l, encoders[e], n), spots,
      s => OfTurns(codec, turns, encoders, s), iset s: Spot | s.0 == l && s.1 == e && s.2 < n)
  {
    hide Decoded;
    var of := s => OfTurns(codec, turns, encoders, s);
    var values := turns[l].items[e].items;
    var all := iset s: Spot | s.0 == l && s.1 == e && s.2 < n;
    if n == 0 {
      Nothing(of, all);
      return [];
    }
    var k := n - 1;
    var before := iset s: Spot | s.0 == l && s.1 == e && s.2 < k;
    var last := (l, e, k);
    var left := EncoderInTurn(codec, turns, encoders, l, e, k);
    var right := OneOrNone(of, last);
    assert Cell(turns[l], e, k) == Some(values[k]);
    var added := ValueRemaps(codec, values[k], l, Target(encoders[e], k).0, Target(encoders[e], k).1);
    assert added == if of(last).Some? then [of(last).value] else [];
    Together(EncoderRemaps(codec, values, l, encoders[e], k), added, left, right, of, before, iset{last});
    assert before + iset{last} == all;
    return left + right;
  }

  lemma {:induction false} TurnInTurn(codec: Codec, turns: seq<Json>, encoders: seq<Encoder>, l: nat, n: nat)
    returns (spots: seq<Spot>)
    requires l < |turns| && turns[l].Items? && n <= |turns[l].items| && n <= |encoders|
    ensures InTurn(TurnRemaps(codec, turns[l].items, l, encoders, n), spots,
      s => OfTurns(codec, turns, encoders, s), iset s: Spot | s.0 == l && s.1 < n)
  {
    hide Decoded, EncoderRemaps, SpotLess;
    var of := s => OfTurns(codec, turns, encoders, s);
    var all := iset s: Spot | s.0 == l && s.1 < n;
    if n == 0 {
      Nothing(of, all);
      return [];
    }
    var e := n - 1;
    var before := iset s: Spot | s.0 == l && s.1 < e;
    var values := turns[l].items[e];
    var left := TurnInTurn(codec, turns, encoders, l, e);
    InOrder(l, e);
    if values.Items? {
      var m := Smaller(|values.items|, 2);
      var these := iset s: Spot | s.0 == l && s.1 == e && s.2 < m;
      var right := EncoderInTurn(codec, turns, encoders, l, e, m);
      Together(TurnRemaps(codec, turns[l].items, l, encoders, e), EncoderRemaps(codec, values.items, l, encoders[e], m),
        left, right, of, before, these);
      Wider(TurnRemaps(codec, turns[l].items, l, encoders, n), left + right, of, before + these, all);
      return left + right;
    } else {
      var remaps := TurnRemaps(codec, turns[l].items, l, encoders, e);
      assert remaps + [] == remaps;
      Wider(remaps, left, of, before, all);
      return left;
    }
  }

  lemma {:induction false} SomeTurnsInTurn(codec: Codec, turns: seq<Json>, encoders: seq<Encoder>, n: nat)
    returns (spots: seq<Spot>)
    requires n <= |turns|
    ensures InTurn(TurnsRemaps(codec, turns, n, encoders), spots,
      s => OfTurns(codec, turns, encoders, s), iset s: Spot | s.0 < n)
  {
    hide Decoded, TurnRemaps, SpotLess;
    var of := s => OfTurns(codec, turns, encoders, s);
    var all := iset s: Spot | s.0 < n;
    if n == 0 {
      Nothing(of, all);
      return [];
    }
    var l := n - 1;
    var before := iset s: Spot | s.0 < l;
    var left := SomeTurnsInTurn(codec, turns, encoders, l);
    InOrder(l, 0);
    if turns[l].Items? {
      var m := Smaller(|turns[l].items|, |encoders|);
      var these := iset s: Spot | s.0 == l && s.1 < m;
      var right := TurnInTurn(codec, turns, encoders, l, m);
      Together(TurnsRemaps(codec, turns, l, encoders), TurnRemaps(codec, turns[l].items, l, encoders, m), left, right,
        of, before, these);
      Wider(TurnsRemaps(codec, turns, n, encoders), left + right, of, before + these, all);
      return left + right;
    } else {
      var remaps := TurnsRemaps(codec, turns, l, encoders);
      assert remaps + [] == remaps;
      Wider(remaps, left, of, before, all);
      return left;
    }
  }

  /** The remaps of the encoder layout: of the two values of each configured encoder, in order. */
  lemma TurnsInTurn(codec: Codec, turns: seq<Json>, encoders: seq<Encoder>) returns (spots: seq<Spot>)
    ensures InTurn(TurnsRemaps(codec, turns, |turns|, encoders), spots,
      s => OfTurns(codec, turns, encoders, s), iset s: Spot | s.0 < |turns|)
    ensures forall s :: s in spots <==> OfTurns(codec, turns, encoders, s).Some?
  {
    hide Decoded, TurnsRemaps, SpotLess;
    spots := SomeTurnsInTurn(codec, turns, encoders, |turns|);
  }

  /** A value that is no array has no cells, and cells outside an array are not there. */
  lemma CellsAre(layer: Json, row: nat, col: nat)
    ensures Cell(layer, row, col).Some? <==> (
      && layer.Items? && row < |layer.items| && layer.items[row].Items? && col < |layer.items[row].items|)
    ensures Cell(layer, row, col).Some? ==> Cell(layer, row, col).value == layer.items[row].items[col]
  {
  }

  /** A number names the action of the codec if it is not negative. */
  lemma NumbersNameActions(codec: Codec, raw: Json)
    ensures codec.integer(raw) == None ==> Decoded(codec, raw) == None
    ensures codec.integer(raw).Some? && codec.integer(raw).value < 0 ==> Decoded(codec, raw) == None
    ensures codec.integer(raw).Some? && codec.integer(raw).value >= 0 ==>
      Decoded(codec, raw) == codec.decode(codec.integer(raw).value)
  {
  }

  /** The fields of an export: the version, the identity, and the settings. */
  lemma ExportIsMarked(uid: int, layout: seq<Json>, turns: seq<Json>, warnings: seq<Json>, extras: Extras,
                       others: map<string, Json>)
    ensures var fields := Document(uid, layout, turns, Settings(warnings, extras), others).fields;
      && fields.Keys == others.Keys + {"version", "uid", "layout", "encoder_layout", "settings"}
      && fields["version"] == Number(1) && fields["uid"] == Number(uid)
      && fields["settings"].Object? && AreSettings(fields["settings"].fields, warnings, extras)
  {
    SettingsAreMarked(warnings, extras);
    hide Settings, AreSettings;
  }

  /** The warnings if there are any, and what else travels along if it is there. */
  ghost predicate AreSettings(settings: map<string, Json>, warnings: seq<Json>, extras: Extras) {
    && (forall key | key in settings :: key in {WARNINGS_KEY, INTERACTION_KEY, MACRO_KEY})
    && IsField(settings, WARNINGS_KEY, if warnings == [] then None else Some(Items(warnings)))
    && IsField(settings, INTERACTION_KEY,
      if extras.interaction.None? then None else Some(Object(extras.interaction.value)))
    && IsField(settings, MACRO_KEY,
      if extras.macro.None? then None else Some(Text(extras.macro.value)))
  }

  ghost predicate IsField(fields: map<string, Json>, key: string, value: Option<Json>) {
    (key in fields <==> value.Some?) && (value.Some? ==> fields[key] == value.value)
  }

  lemma SettingsAreMarked(warnings: seq<Json>, extras: Extras)
    ensures AreSettings(Settings(warnings, extras), warnings, extras)
  {
    KeysAre();
    hide WARNINGS_KEY, INTERACTION_KEY, MACRO_KEY;
  }

  lemma KeysAre()
    ensures WARNINGS_KEY == "hidloom_export_warnings" && INTERACTION_KEY == "hidloom_interaction_settings"
    ensures MACRO_KEY == "hidloom_vial_macro_buffer"
    ensures WARNINGS_KEY != INTERACTION_KEY && WARNINGS_KEY != MACRO_KEY && INTERACTION_KEY != MACRO_KEY
  {
    assert |WARNINGS_KEY| == 23 && |INTERACTION_KEY| == 28 && |MACRO_KEY| == 25;
  }

  /** A position without an action is exported as the key that does nothing. */
  lemma ExportedCell(codec: Codec, layers: seq<Layer>, rows: nat, cols: nat, l: nat, row: nat, col: nat)
    requires l < |layers| && row < rows && col < cols
    ensures Cell(ExportedLayout(codec, layers, rows, cols)[l], row, col)
      == Some(Number(codec.encode(if (row, col) in layers[l] then layers[l][(row, col)] else "KC_NONE")))
  {
    var layer := ExportedLayout(codec, layers, rows, cols)[l];
    assert layer == ExportedLayer(codec, layers[l], rows, cols);
    var values := layer.items[row];
    assert values == ExportedRow(codec, layers[l], row, cols);
    assert values.items[col] == Number(codec.encode(ActionAt(layers[l], row, col)));
    CellsAre(layer, row, col);
  }

  /** And so are the two targets of an encoder, in their order. */
  lemma ExportedTurn(codec: Codec, layers: seq<Layer>, encoders: seq<Encoder>, l: nat, e: nat)
    requires l < |layers| && e < |encoders|
    ensures var (first, second) := encoders[e]; var layer := layers[l];
      && Cell(ExportedTurns(codec, layers, encoders)[l], e, 0)
        == Some(Number(codec.encode(if first in layer then layer[first] else "KC_NONE")))
      && Cell(ExportedTurns(codec, layers, encoders)[l], e, 1)
        == Some(Number(codec.encode(if second in layer then layer[second] else "KC_NONE")))
      && Cell(ExportedTurns(codec, layers, encoders)[l], e, 2) == None
  {
    TwoValues(codec, layers[l], encoders[e]);
    hide ExportedEncoder;
    var turn := ExportedTurns(codec, layers, encoders)[l];
    assert turn == ExportedEncoders(codec, layers[l], encoders);
    assert turn.items[e] == ExportedEncoder(codec, layers[l], encoders[e]);
  }
}
