/** vil_layout.py: exporting a keymap as a .vil document and importing it again. */
module VilLayout {
  import opened Options

  /** A JSON value; the text itself is not modelled. */
  datatype Json = Null | Number(n: int) | Text(s: string) | Items(items: seq<Json>) | Object(fields: map<string, Json>)

  /** The keycode codec, and Python's int() on a JSON value. */
  datatype Codec = Codec(encode: string -> nat, decode: nat -> Option<string>, integer: Json -> Option<int>)

  ghost predicate ReadsNumbers(codec: Codec) { forall n: int :: codec.integer(Number(n)) == Some(n) }

  /** The actions of one layer by row and column. */
  type Layer = map<(int, int), string>

  /** The targets of one encoder: counter-clockwise and clockwise. */
  type Encoder = ((int, int), (int, int))

  datatype Remap = Remap(layer: nat, row: int, col: int, action: string)

  const VIL_VERSION := 1
  const WARNINGS_KEY := "hidloom_export_warnings"
  const INTERACTION_KEY := "hidloom_interaction_settings"
  const MACRO_KEY := "hidloom_vial_macro_buffer"

  function ActionAt(layer: Layer, row: int, col: int): string {
    if (row, col) in layer then layer[(row, col)] else "KC_NONE"
  }

  function Target(encoder: Encoder, k: nat): (int, int)
    requires k < 2
  {
    if k == 0 then encoder.0 else encoder.1
  }

  // ----- export ------------------------------------------------------------------------------------

  /** An action without a keycode is exported as KC_NONE, with a warning. */
  predicate Warns(codec: Codec, action: string) {
    codec.encode(action) == 0 && action !in {"KC_NONE", "KC_NO"}
  }

  method EncodeAction(codec: Codec, action: string, warnings: seq<Json>) returns (keycode: Json, warnings': seq<Json>)
    ensures keycode == Number(codec.encode(action))
    ensures warnings' == if Warns(codec, action) then warnings + [Text(action)] else warnings
  {
    keycode, warnings' := Number(codec.encode(action)), warnings;
    if codec.encode(action) == 0 && action !in {"KC_NONE", "KC_NO"} {
      warnings' := warnings + [Text(action)];
    }
  }

  function ExportedRow(codec: Codec, layer: Layer, row: nat, cols: nat): Json {
    Items(seq(cols, col requires 0 <= col < cols => Number(codec.encode(ActionAt(layer, row, col)))))
  }

  function ExportedLayer(codec: Codec, layer: Layer, rows: nat, cols: nat): Json {
    Items(seq(rows, row requires 0 <= row < rows => ExportedRow(codec, layer, row, cols)))
  }

  function ExportedEncoder(codec: Codec, layer: Layer, encoder: Encoder): Json {
    Items(seq(2, k requires 0 <= k < 2 =>
      Number(codec.encode(ActionAt(layer, Target(encoder, k).0, Target(encoder, k).1)))))
  }

  function ExportedEncoders(codec: Codec, layer: Layer, encoders: seq<Encoder>): Json {
    Items(seq(|encoders|, e requires 0 <= e < |encoders| => ExportedEncoder(codec, layer, encoders[e])))
  }

  /** The settings that travel with the layout. */
  datatype Extras = Extras(interaction: Option<map<string, Json>>, macro: Option<string>)

  function Settings(warnings: seq<Json>, extras: Extras): map<string, Json> {
    (if warnings == [] then map[] else map[WARNINGS_KEY := Items(warnings)])
    + (if extras.interaction.None? then map[] else map[INTERACTION_KEY := Object(extras.interaction.value)])
    + (if extras.macro.None? then map[] else map[MACRO_KEY := Text(extras.macro.value)])
  }

  /** The warning for an action, if the position it stands at is exported. */
  ghost predicate RowHas(layer: Layer, row: int, cols: nat, a: string) {
    exists c :: 0 <= c < cols && ActionAt(layer, row, c) == a
  }

  ghost predicate MatrixHas(layer: Layer, rows: nat, cols: nat, a: string) {
    exists r :: 0 <= r < rows && RowHas(layer, r, cols, a)
  }

  predicate EncoderHas(layer: Layer, encoder: Encoder, a: string) {
    ActionAt(layer, encoder.0.0, encoder.0.1) == a || ActionAt(layer, encoder.1.0, encoder.1.1) == a
  }

  ghost predicate EncodersHave(layer: Layer, encoders: seq<Encoder>, a: string) {
    exists encoder :: encoder in encoders && EncoderHas(layer, encoder, a)
  }

  /** Exactly the actions without a keycode among those of the given positions are warned of. */
  ghost predicate WarnsOf(codec: Codec, before: seq<Json>, after: seq<Json>, exported: string -> bool) {
    forall a: string :: Text(a) in after <==> Text(a) in before || (Warns(codec, a) && exported(a))
  }

  method ExportRow(codec: Codec, layer: Layer, row: nat, cols: nat, warnings: seq<Json>)
    returns (values: Json, warnings': seq<Json>)
    ensures values == ExportedRow(codec, layer, row, cols)
    ensures WarnsOf(codec, warnings, warnings', a => RowHas(layer, row, cols, a))
  {
    var items := [];
    warnings' := warnings;
    for col := 0 to cols
      invariant |items| == col && forall c | 0 <= c < col :: items[c] == Number(codec.encode(ActionAt(layer, row, c)))
      invariant WarnsOf(codec, warnings, warnings', a => RowHas(layer, row, col, a))
    {
      var keycode;
      keycode, warnings' := EncodeAction(codec, ActionAt(layer, row, col), warnings');
      items := items + [keycode];
    }
    values := Items(items);
  }

  method ExportLayer(codec: Codec, layer: Layer, rows: nat, cols: nat, warnings: seq<Json>)
    returns (values: Json, warnings': seq<Json>)
    ensures values == ExportedLayer(codec, layer, rows, cols)
    ensures WarnsOf(codec, warnings, warnings', a => MatrixHas(layer, rows, cols, a))
  {
    hide RowHas;
    var items := [];
    warnings' := warnings;
    for row := 0 to rows
      invariant |items| == row && forall r | 0 <= r < row :: items[r] == ExportedRow(codec, layer, r, cols)
      invariant WarnsOf(codec, warnings, warnings', a => MatrixHas(layer, row, cols, a))
    {
      var values;
      values, warnings' := ExportRow(codec, layer, row, cols, warnings');
      items := items + [values];
    }
    values := Items(items);
  }

  method ExportEncoders(codec: Codec, layer: Layer, encoders: seq<Encoder>, warnings: seq<Json>)
    returns (values: Json, warnings': seq<Json>)
    ensures values == ExportedEncoders(codec, layer, encoders)
    ensures WarnsOf(codec, warnings, warnings', a => EncodersHave(layer, encoders, a))
  {
    hide ActionAt;
    var items := [];
    warnings' := warnings;
    for e := 0 to |encoders|
      invariant |items| == e && forall i | 0 <= i < e :: items[i] == ExportedEncoder(codec, layer, encoders[i])
      invariant WarnsOf(codec, warnings, warnings', a => EncodersHave(layer, encoders[..e], a))
    {
      var first, second;
      first, warnings' := EncodeAction(codec, ActionAt(layer, encoders[e].0.0, encoders[e].0.1), warnings');
      second, warnings' := EncodeAction(codec, ActionAt(layer, encoders[e].1.0, encoders[e].1.1), warnings');
      TwoValues(codec, layer, encoders[e]);
      items := items + [Items([first, second])];
      assert encoders[..e + 1] == encoders[..e] + [encoders[e]];
      forall a: string { OneMoreEncoder(layer, encoders[..e], encoders[e], a); }
    }
    assert encoders[..|encoders|] == encoders;
    values := Items(items);
  }

  lemma TwoValues(codec: Codec, layer: Layer, encoder: Encoder)
    ensures ExportedEncoder(codec, layer, encoder)
      == Items([Number(codec.encode(ActionAt(layer, encoder.0.0, encoder.0.1))),
        Number(codec.encode(ActionAt(layer, encoder.1.0, encoder.1.1)))])
  {
    var items := ExportedEncoder(codec, layer, encoder).items;
    assert Target(encoder, 0) == encoder.0 && Target(encoder, 1) == encoder.1;
    assert items[0] == Number(codec.encode(ActionAt(layer, encoder.0.0, encoder.0.1)));
    assert items[1] == Number(codec.encode(ActionAt(layer, encoder.1.0, encoder.1.1)));
  }

  lemma OneMoreEncoder(layer: Layer, encoders: seq<Encoder>, encoder: Encoder, a: string)
    ensures EncodersHave(layer, encoders + [encoder], a)
      <==> EncodersHave(layer, encoders, a) || EncoderHas(layer, encoder, a)
  {
  }

  ghost predicate SomeLayerHas(layers: seq<Layer>, rows: nat, cols: nat, encoders: seq<Encoder>,
                               n: nat, m: nat, a: string) {
    || (exists l :: 0 <= l < n && l < |layers| && MatrixHas(layers[l], rows, cols, a))
    || (exists l :: 0 <= l < m && l < |layers| && EncodersHave(layers[l], encoders, a))
  }

  function Document(uid: int, layout: seq<Json>, turns: seq<Json>, settings: map<string, Json>,
                    others: map<string, Json>): Json {
    Object(others["version" := Number(VIL_VERSION)]["uid" := Number(uid)]["layout" := Items(layout)]
      ["encoder_layout" := Items(turns)]["settings" := Object(settings)])
  }

  function ExportedLayout(codec: Codec, layers: seq<Layer>, rows: nat, cols: nat): seq<Json> {
    seq(|layers|, l requires 0 <= l < |layers| => ExportedLayer(codec, layers[l], rows, cols))
  }

  function ExportedTurns(codec: Codec, layers: seq<Layer>, encoders: seq<Encoder>): seq<Json> {
    seq(|layers|, l requires 0 <= l < |layers| => ExportedEncoders(codec, layers[l], encoders))
  }

  /** build_vil_document, and the warnings it collects; `others` are the fields that import
      passes over. */
  method BuildVilDocument(codec: Codec, uid: int, rows: nat, cols: nat, layers: seq<Layer>,
                          encoders: seq<Encoder>, extras: Extras, others: map<string, Json>)
    returns (document: Json, warnings: seq<Json>)
    ensures document == Document(uid, ExportedLayout(codec, layers, rows, cols), ExportedTurns(codec, layers, encoders),
      Settings(warnings, extras), others)
    ensures forall a: string :: (
      Text(a) in warnings <==> Warns(codec, a) && SomeLayerHas(layers, rows, cols, encoders, |layers|, |layers|, a))
  {
    hide WarnsOf, SomeLayerHas, Settings;
    var layout, seen := ExportLayers(codec, layers, rows, cols, encoders);
    var turns;
    turns, seen := ExportTurns(codec, layers, rows, cols, encoders, seen);
    warnings := seen;
    AllWarnings(codec, seen, layers, rows, cols, encoders);
    document := Document(uid, layout, turns, Settings(seen, extras), others);
  }

  lemma AllWarnings(codec: Codec, seen: seq<Json>, layers: seq<Layer>, rows: nat, cols: nat, encoders: seq<Encoder>)
    requires WarnsOf(codec, [], seen, a => SomeLayerHas(layers, rows, cols, encoders, |layers|, |layers|, a))
    ensures forall a: string :: (
      Text(a) in seen <==> Warns(codec, a) && SomeLayerHas(layers, rows, cols, encoders, |layers|, |layers|, a))
  {
  }

  /** The loop over the layers that fills the layout. */
  method ExportLayers(codec: Codec, layers: seq<Layer>, rows: nat, cols: nat, encoders: seq<Encoder>)
    returns (layout: seq<Json>, warnings: seq<Json>)
    ensures layout == ExportedLayout(codec, layers, rows, cols)
    ensures WarnsOf(codec, [], warnings, a => SomeLayerHas(layers, rows, cols, encoders, |layers|, 0, a))
  {
    hide MatrixHas, EncodersHave, Warns, ExportedLayer;
    layout, warnings := [], [];
    for l := 0 to |layers|
      invariant |layout| == l && forall i | 0 <= i < l :: layout[i] == ExportedLayer(codec, layers[i], rows, cols)
      invariant WarnsOf(codec, [], warnings, a => SomeLayerHas(layers, rows, cols, encoders, l, 0, a))
    {
      var values;
      values, warnings := ExportLayer(codec, layers[l], rows, cols, warnings);
      layout := layout + [values];
    }
  }

  /** The loop over the layers that fills the encoder layout. */
  method ExportTurns(codec: Codec, layers: seq<Layer>, rows: nat, cols: nat, encoders: seq<Encoder>, seen: seq<Json>)
    returns (turns: seq<Json>, warnings: seq<Json>)
    requires WarnsOf(codec, [], seen, a => SomeLayerHas(layers, rows, cols, encoders, |layers|, 0, a))
    ensures turns == ExportedTurns(codec, layers, encoders)
    ensures WarnsOf(codec, [], warnings, a => SomeLayerHas(layers, rows, cols, encoders, |layers|, |layers|, a))
  {
    hide MatrixHas, EncodersHave, Warns, ExportedEncoders;
    turns, warnings := [], seen;
    for l := 0 to |layers|
      invariant |turns| == l && forall i | 0 <= i < l :: turns[i] == ExportedEncoders(codec, layers[i], encoders)
      invariant WarnsOf(codec, [], warnings, a => SomeLayerHas(layers, rows, cols, encoders, |layers|, l, a))
    {
      var values;
      values, warnings := ExportEncoders(codec, layers[l], encoders, warnings);
      turns := turns + [values];
    }
  }

  // ----- import ------------------------------------------------------------------------------------

  datatype Plan = Plan(uid: Option<int>, remaps: seq<Remap>, mismatch: bool, extras: Extras)

  /** _decode_keycode without its warnings */
  function Decoded(codec: Codec, raw: Json): Option<string> {
    match codec.integer(raw)
    case Some(n) => if n >= 0 then codec.decode(n) else None
    case None => None
  }

  /** The value at an index of an array, if there is one. */
  function At(value: Json, i: int): Option<Json> {
    if value.Items? && 0 <= i < |value.items| then Some(value.items[i]) else None
  }

  function Cell(layer: Json, row: int, col: int): Option<Json> {
    match At(layer, row) case Some(values) => At(values, col) case None => None
  }

  /** What a remap of the layout stands for. */
  predicate FromCell(codec: Codec, layer: Json, rows: nat, cols: nat, m: Remap) {
    && 0 <= m.row < rows && 0 <= m.col < cols
    && Cell(layer, m.row, m.col).Some? && Decoded(codec, Cell(layer, m.row, m.col).value) == Some(m.action)
  }

  function Smaller(a: nat, b: nat): (m: nat)
    ensures m <= a && m <= b
  {
    if a < b then a else b
  }

  /** At most one remap for a value. */
  function ValueRemaps(codec: Codec, raw: Json, l: nat, row: int, col: int): seq<Remap> {
    match Decoded(codec, raw) case Some(action) => [Remap(l, row, col, action)] case None => []
  }

  /** The remaps of the first n values of a row, in order. */
  function RowRemaps(codec: Codec, values: seq<Json>, l: nat, row: nat, n: nat): seq<Remap>
    requires n <= |values|
  {
    if n == 0 then [] else RowRemaps(codec, values, l, row, n - 1) + ValueRemaps(codec, values[n - 1], l, row, n - 1)
  }

  /** Those of the first n rows of a layer; what is no array is passed over. */
  function LayerRemaps(codec: Codec, layer: seq<Json>, l: nat, n: nat, cols: nat): seq<Remap>
    requires n <= |layer|
  {
    if n == 0 then [] else
      LayerRemaps(codec, layer, l, n - 1, cols)
      + if layer[n - 1].Items?
        then RowRemaps(codec, layer[n - 1].items, l, n - 1, Smaller(|layer[n - 1].items|, cols))
        else []
  }

  function LayoutRemaps(codec: Codec, layout: seq<Json>, n: nat, rows: nat, cols: nat): seq<Remap>
    requires n <= |layout|
  {
    if n == 0 then [] else
      LayoutRemaps(codec, layout, n - 1, rows, cols)
      + if layout[n - 1].Items?
        then LayerRemaps(codec, layout[n - 1].items, n - 1, Smaller(|layout[n - 1].items|, rows), cols)
        else []
  }

  method ImportRow(codec: Codec, values: seq<Json>, l: nat, row: nat, cols: nat) returns (remaps: seq<Remap>)
    ensures remaps == RowRemaps(codec, values, l, row, Smaller(|values|, cols))
  {
    hide Decoded;
    remaps := [];
    for col := 0 to Smaller(|values|, cols)
      invariant remaps == RowRemaps(codec, values, l, row, col)
    {
      var action := Decoded(codec, values[col]);
      if action.Some? { remaps := remaps + [Remap(l, row, col, action.value)]; }
    }
  }

  method ImportLayer(codec: Codec, layer: seq<Json>, l: nat, rows: nat, cols: nat) returns (remaps: seq<Remap>)
    ensures remaps == LayerRemaps(codec, layer, l, Smaller(|layer|, rows), cols)
  {
    hide Decoded;
    remaps := [];
    for row := 0 to Smaller(|layer|, rows)
      invariant remaps == LayerRemaps(codec, layer, l, row, cols)
    {
      if !layer[row].Items? { continue; }
      var added := ImportRow(codec, layer[row].items, l, row, cols);
      remaps := remaps + added;
    }
  }

  method ImportLayout(codec: Codec, layout: seq<Json>, rows: nat, cols: nat) returns (remaps: seq<Remap>)
    ensures remaps == LayoutRemaps(codec, layout, |layout|, rows, cols)
  {
    hide Decoded;
    remaps := [];
    for l := 0 to |layout|
      invariant remaps == LayoutRemaps(codec, layout, l, rows, cols)
    {
      if !layout[l].Items? { continue; }
      var added := ImportLayer(codec, layout[l].items, l, rows, cols);
      remaps := remaps + added;
    }
  }

  lemma {:induction false} RowRemapsMean(codec: Codec, values: seq<Json>, l: nat, row: nat, n: nat, m: Remap)
    requires n <= |values|
    ensures m in RowRemaps(codec, values, l, row, n)
      <==> m.layer == l && m.row == row && 0 <= m.col < n && Decoded(codec, values[m.col]) == Some(m.action)
  {
    hide Decoded;
    if n > 0 { RowRemapsMean(codec, values, l, row, n - 1, m); }
  }

  lemma {:induction false} LayerRemapsMean(codec: Codec, layer: seq<Json>, l: nat, n: nat, cols: nat, m: Remap)
    requires n <= |layer|
    ensures m in LayerRemaps(codec, layer, l, n, cols)
      <==> m.layer == l && 0 <= m.row < n && FromCell(codec, Items(layer), n, cols, m)
  {
    hide Decoded;
    if n > 0 {
      LayerRemapsMean(codec, layer, l, n - 1, cols, m);
      if layer[n - 1].Items? {
        RowRemapsMean(codec, layer[n - 1].items, l, n - 1, Smaller(|layer[n - 1].items|, cols), m);
      }
    }
  }

  lemma {:induction false} LayoutRemapsMean(codec: Codec, layout: seq<Json>, n: nat, rows: nat, cols: nat, m: Remap)
    requires n <= |layout|
    ensures m in LayoutRemaps(codec, layout, n, rows, cols)
      <==> m.layer < n && FromCell(codec, layout[m.layer], rows, cols, m)
  {
    hide Decoded;
    if n > 0 {
      LayoutRemapsMean(codec, layout, n - 1, rows, cols, m);
      if layout[n - 1].Items? {
        LayerRemapsMean(codec, layout[n - 1].items, n - 1, Smaller(|layout[n - 1].items|, rows), cols, m);
      }
    }
  }

  /** What a remap of an encoder stands for: its k-th value. */
  predicate FromValue(codec: Codec, values: seq<Json>, encoder: Encoder, k: nat, m: Remap) {
    k < 2 && k < |values| && Target(encoder, k) == (m.row, m.col) && Decoded(codec, values[k]) == Some(m.action)
  }

  ghost predicate FromEncoder(codec: Codec, layer: seq<Json>, encoders: seq<Encoder>, e: nat, m: Remap) {
    && e < |layer| && e < |encoders| && layer[e].Items?
    && exists k: nat :: FromValue(codec, layer[e].items, encoders[e], k, m)
  }

  ghost predicate FromTurn(codec: Codec, layer: Json, encoders: seq<Encoder>, m: Remap) {
    layer.Items? && exists e: nat :: FromEncoder(codec, layer.items, encoders, e, m)
  }

  /** The remaps of an encoder's first two values. */
  function EncoderRemaps(codec: Codec, values: seq<Json>, l: nat, encoder: Encoder, n: nat): seq<Remap>
    requires n <= |values| && n <= 2
  {
    if n == 0 then [] else
      EncoderRemaps(codec, values, l, encoder, n - 1)
      + ValueRemaps(codec, values[n - 1], l, Target(encoder, n - 1).0, Target(encoder, n - 1).1)
  }

  function TurnRemaps(codec: Codec, layer: seq<Json>, l: nat, encoders: seq<Encoder>, n: nat): seq<Remap>
    requires n <= |layer| && n <= |encoders|
  {
    if n == 0 then [] else
      TurnRemaps(codec, layer, l, encoders, n - 1)
      + if layer[n - 1].Items?
        then EncoderRemaps(codec, layer[n - 1].items, l, encoders[n - 1], Smaller(|layer[n - 1].items|, 2))
        else []
  }

  function TurnsRemaps(codec: Codec, turns: seq<Json>, n: nat, encoders: seq<Encoder>): seq<Remap>
    requires n <= |turns|
  {
    if n == 0 then [] else
      TurnsRemaps(codec, turns, n - 1, encoders)
      + if turns[n - 1].Items?
        then TurnRemaps(codec, turns[n - 1].items, n - 1, encoders, Smaller(|turns[n - 1].items|, |encoders|))
        else []
  }

  /** The values of one encoder; a third one is ignored. */
  method ImportEncoder(codec: Codec, values: seq<Json>, l: nat, encoder: Encoder) returns (remaps: seq<Remap>)
    ensures remaps == EncoderRemaps(codec, values, l, encoder, Smaller(|values|, 2))
  {
    hide Decoded;
    remaps := [];
    for k := 0 to Smaller(|values|, 2)
      invariant remaps == EncoderRemaps(codec, values, l, encoder, k)
    {
      var (row, col) := Target(encoder, k);
      var action := Decoded(codec, values[k]);
      if action.Some? { remaps := remaps + [Remap(l, row, col, action.value)]; }
    }
  }

  method ImportEncoders(codec: Codec, layer: seq<Json>, l: nat, encoders: seq<Encoder>) returns (remaps: seq<Remap>)
    ensures remaps == TurnRemaps(codec, layer, l, encoders, Smaller(|layer|, |encoders|))
  {
    hide Decoded;
    remaps := [];
    for e := 0 to Smaller(|layer|, |encoders|)
      invariant remaps == TurnRemaps(codec, layer, l, encoders, e)
    {
      if !layer[e].Items? { continue; }
      var added := ImportEncoder(codec, layer[e].items, l, encoders[e]);
      remaps := remaps + added;
    }
  }

  method ImportTurns(codec: Codec, turns: seq<Json>, encoders: seq<Encoder>) returns (remaps: seq<Remap>)
    ensures remaps == TurnsRemaps(codec, turns, |turns|, encoders)
  {
    hide Decoded;
    remaps := [];
    for l := 0 to |turns|
      invariant remaps == TurnsRemaps(codec, turns, l, encoders)
    {
      if !turns[l].Items? { continue; }
      var added := ImportEncoders(codec, turns[l].items, l, encoders);
      remaps := remaps + added;
    }
  }

  lemma {:induction false} EncoderRemapsMean(codec: Codec, values: seq<Json>, l: nat,
                                             encoder: Encoder, n: nat, m: Remap)
    requires n <= |values| && n <= 2
    ensures m in EncoderRemaps(codec, values, l, encoder, n)
      <==> m.layer == l && exists k: nat :: k < n && FromValue(codec, values, encoder, k, m)
  {
    hide Decoded;
    if n > 0 {
      var last := n - 1;
      EncoderRemapsMean(codec, values, l, encoder, last, m);
      assert FromValue(codec, values, encoder, last, m)
        <==> Target(encoder, last) == (m.row, m.col) && Decoded(codec, values[last]) == Some(m.action);
    }
  }

  lemma {:induction false} TurnRemapsMean(codec: Codec, layer: seq<Json>, l: nat,
                                          encoders: seq<Encoder>, n: nat, m: Remap)
    requires n <= |layer| && n <= |encoders|
    ensures m in TurnRemaps(codec, layer, l, encoders, n)
      <==> m.layer == l && exists e: nat :: e < n && FromEncoder(codec, layer, encoders, e, m)
  {
    hide Decoded, FromValue;
    if n > 0 {
      var last := n - 1;
      TurnRemapsMean(codec, layer, l, encoders, last, m);
      if layer[last].Items? {
        EncoderRemapsMean(codec, layer[last].items, l, encoders[last], Smaller(|layer[last].items|, 2), m);
        WithinTwo(codec, layer[last].items, encoders[last], m);
      }
      assert FromEncoder(codec, layer, encoders, last, m) ==> layer[last].Items?;
    }
  }

  lemma WithinTwo(codec: Codec, values: seq<Json>, encoder: Encoder, m: Remap)
    ensures (exists k: nat :: FromValue(codec, values, encoder, k, m))
      <==> exists k: nat :: k < Smaller(|values|, 2) && FromValue(codec, values, encoder, k, m)
  {
  }

  lemma {:induction false} TurnsRemapsMean(codec: Codec, turns: seq<Json>, n: nat, encoders: seq<Encoder>, m: Remap)
    requires n <= |turns|
    ensures m in TurnsRemaps(codec, turns, n, encoders) <==> m.layer < n && FromTurn(codec, turns[m.layer], encoders, m)
  {
    hide Decoded, FromEncoder, FromValue;
    if n > 0 {
      var last := n - 1;
      TurnsRemapsMean(codec, turns, last, encoders, m);
      if turns[last].Items? {
        TurnRemapsMean(codec, turns[last].items, last, encoders, Smaller(|turns[last].items|, |encoders|), m);
        WithinEncoders(codec, turns[last].items, encoders, m);
      }
    }
  }

  lemma WithinEncoders(codec: Codec, layer: seq<Json>, encoders: seq<Encoder>, m: Remap)
    ensures (exists e: nat :: FromEncoder(codec, layer, encoders, e, m))
      <==> exists e: nat :: e < Smaller(|layer|, |encoders|) && FromEncoder(codec, layer, encoders, e, m)
  {
    hide FromValue;
  }

  function Field(document: Json, key: string, default: Json): Json {
    if document.Object? && key in document.fields then document.fields[key] else default
  }

  function ReadExtras(settings: Json): Extras {
    var interaction, macro := Field(settings, INTERACTION_KEY, Null), Field(settings, MACRO_KEY, Null);
    Extras(if interaction.Object? then Some(interaction.fields) else None, if macro.Text? then Some(macro.s) else None)
  }

  /** What parse_vil_import refuses with an exception. */
  predicate Readable(codec: Codec, document: Json) {
    && document.Object?
    && codec.integer(Field(document, "version", Number(0))) == Some(VIL_VERSION)
    && (Field(document, "uid", Null) != Null ==> codec.integer(Field(document, "uid", Null)).Some?)
  }

  function UidOf(codec: Codec, document: Json): Option<int> {
    if Field(document, "uid", Null) == Null then None else codec.integer(Field(document, "uid", Null))
  }

  function Elements(value: Json): seq<Json> { if value.Items? then value.items else [] }

  /** The remaps a document asks for, in the order in which they are applied. */
  function CellRemaps(codec: Codec, document: Json, rows: nat, cols: nat): seq<Remap> {
    var layout := Elements(Field(document, "layout", Items([])));
    LayoutRemaps(codec, layout, |layout|, rows, cols)
  }

  function EncoderLayoutRemaps(codec: Codec, document: Json, encoders: seq<Encoder>): seq<Remap> {
    var turns := Elements(Field(document, "encoder_layout", Items([])));
    TurnsRemaps(codec, turns, |turns|, encoders)
  }

  function Asks(codec: Codec, document: Json, rows: nat, cols: nat, encoders: seq<Encoder>): seq<Remap> {
    CellRemaps(codec, document, rows, cols) + EncoderLayoutRemaps(codec, document, encoders)
  }

  /** parse_vil_import; None is an exception. */
  method ParseVilImport(codec: Codec, document: Json, expectedUid: int, rows: nat, cols: nat,
                        encoders: seq<Encoder>, force: bool)
    returns (plan: Option<Plan>)
    ensures plan.Some? ==> plan.value.uid == UidOf(codec, document)
    ensures plan.Some? ==> (plan.value.mismatch <==> plan.value.uid.Some? && plan.value.uid.value != expectedUid)
    ensures plan.Some? && plan.value.mismatch && !force ==>
      plan.value.remaps == [] && plan.value.extras == Extras(None, None)
    ensures plan.Some? && (force || !plan.value.mismatch) ==> (
      && plan.value.remaps == Asks(codec, document, rows, cols, encoders)
      && plan.value.extras == ReadExtras(Field(document, "settings", Object(map[]))))
    ensures plan == None <==> (
      || !Readable(codec, document)
      || (!Field(document, "layout", Items([])).Items?
        && (force || UidOf(codec, document) in {None, Some(expectedUid)})))
  {
    hide Decoded, LayoutRemaps, TurnsRemaps;
    if !document.Object? { return None; }
    if codec.integer(Field(document, "version", Number(0))) != Some(VIL_VERSION) { return None; }
    var raw := Field(document, "uid", Null);
    var uid := if raw == Null then None else codec.integer(raw);
    if raw != Null && uid == None { return None; }
    var mismatch := uid.Some? && uid.value != expectedUid;
    if mismatch && !force { return Some(Plan(uid, [], true, Extras(None, None))); }
    var extras := ReadExtras(Field(document, "settings", Object(map[])));
    var layout := Field(document, "layout", Items([]));
    if !layout.Items? { return None; }
    var remaps := ImportLayout(codec, layout.items, rows, cols);
    var encoderLayout := Field(document, "encoder_layout", Items([]));
    if encoderLayout.Items? {
      var turns := ImportTurns(codec, encoderLayout.items, encoders);
      remaps := remaps + turns;
    } else {
      NoTurns(codec, encoders);
      assert remaps + [] == remaps;
    }
    return Some(Plan(uid, remaps, mismatch, extras));
  }

  lemma NoTurns(codec: Codec, encoders: seq<Encoder>)
    ensures TurnsRemaps(codec, [], 0, encoders) == []
  {
  }

  // ----- applying a plan -------------------------------------------------------------------------------

  type Keymap = map<(nat, int, int), string>

  function Place(m: Remap): (nat, int, int) { (m.layer, m.row, m.col) }

  /** The remaps one after the other. */
  function Apply(keymap: Keymap, remaps: seq<Remap>): Keymap {
    if remaps == [] then keymap else
      var last := remaps[|remaps| - 1];
      Apply(keymap, remaps[..|remaps| - 1])[Place(last) := last.action]
  }

  ghost predicate Says(remaps: seq<Remap>, p: (nat, int, int), action: string) {
    (exists m :: m in remaps && Place(m) == p) && forall m :: m in remaps && Place(m) == p ==> m.action == action
  }

  lemma {:induction false} ApplyElsewhere(keymap: Keymap, remaps: seq<Remap>, p: (nat, int, int))
    requires forall m | m in remaps :: Place(m) != p
    ensures p in Apply(keymap, remaps) <==> p in keymap
    ensures p in keymap ==> Apply(keymap, remaps)[p] == keymap[p]
  {
    if remaps != [] { ApplyElsewhere(keymap, remaps[..|remaps| - 1], p); }
  }

  lemma {:induction false} ApplySays(keymap: Keymap, remaps: seq<Remap>, p: (nat, int, int), action: string)
    requires Says(remaps, p, action)
    ensures p in Apply(keymap, remaps) && Apply(keymap, remaps)[p] == action
  {
    var last, before := remaps[|remaps| - 1], remaps[..|remaps| - 1];
    assert last in remaps;
    if Place(last) != p {
      var m :| m in remaps && Place(m) == p;
      assert m in before;
      assert forall m | m in before :: m in remaps;
      ApplySays(keymap, before, p, action);
    }
  }

  /** Of several remaps for one place the last one stays. */
  lemma LastWins(keymap: Keymap, before: seq<Remap>, m: Remap, after: seq<Remap>)
    requires forall other | other in after :: Place(other) != Place(m)
    ensures var done := Apply(keymap, before + [m] + after); Place(m) in done && done[Place(m)] == m.action
  {
    ApplyInTurn(keymap, before + [m], after);
    assert (before + [m])[..|before|] == before;
    ApplyElsewhere(Apply(keymap, before + [m]), after, Place(m));
  }

  lemma {:induction false} ApplyInTurn(keymap: Keymap, cells: seq<Remap>, turns: seq<Remap>)
    ensures Apply(keymap, cells + turns) == Apply(Apply(keymap, cells), turns)
  {
    if turns == [] {
      assert cells + turns == cells;
    } else {
      var all := cells + turns;
      assert all[..|all| - 1] == cells + turns[..|turns| - 1];
      ApplyInTurn(keymap, cells, turns[..|turns| - 1]);
    }
  }

  /** Where the document gives an encoder target and a matrix cell the same place, the encoder wins. */
  lemma EncodersWin(keymap: Keymap, cells: seq<Remap>, turns: seq<Remap>, p: (nat, int, int), action: string)
    requires Says(turns, p, action)
    ensures p in Apply(keymap, cells + turns) && Apply(keymap, cells + turns)[p] == action
  {
    ApplyInTurn(keymap, cells, turns);
    ApplySays(Apply(keymap, cells), turns, p, action);
  }

  predicate IsTarget(encoders: seq<Encoder>, row: int, col: int) {
    exists encoder :: encoder in encoders && ((row, col) == encoder.0 || (row, col) == encoder.1)
  }

  /** The positions of a layer that a document carries. */
  predicate IsExported(rows: nat, cols: nat, encoders: seq<Encoder>, row: int, col: int) {
    (0 <= row < rows && 0 <= col < cols) || IsTarget(encoders, row, col)
  }

  /** The action an exported one comes back as. */
  function Back(codec: Codec, action: string): Option<string> { codec.decode(codec.encode(action)) }

  lemma CellBack(codec: Codec, layer: Layer, rows: nat, cols: nat, m: Remap)
    requires ReadsNumbers(codec)
    ensures FromCell(codec, ExportedLayer(codec, layer, rows, cols), rows, cols, m)
      <==> 0 <= m.row < rows && 0 <= m.col < cols && Back(codec, ActionAt(layer, m.row, m.col)) == Some(m.action)
  {
  }

  lemma ValueBack(codec: Codec, layer: Layer, encoder: Encoder, k: nat, m: Remap)
    requires ReadsNumbers(codec)
    ensures FromValue(codec, ExportedEncoder(codec, layer, encoder).items, encoder, k, m)
      <==> k < 2 && Target(encoder, k) == (m.row, m.col) && Back(codec, ActionAt(layer, m.row, m.col)) == Some(m.action)
  {
  }

  lemma TurnBack(codec: Codec, layer: Layer, encoders: seq<Encoder>, m: Remap)
    requires ReadsNumbers(codec)
    ensures FromTurn(codec, ExportedEncoders(codec, layer, encoders), encoders, m)
      <==> IsTarget(encoders, m.row, m.col) && Back(codec, ActionAt(layer, m.row, m.col)) == Some(m.action)
  {
    hide ActionAt, ReadsNumbers, Back, FromValue;
    var items := ExportedEncoders(codec, layer, encoders).items;
    forall e: nat, k: nat | e < |encoders|
      ensures FromValue(codec, ExportedEncoder(codec, layer, encoders[e]).items, encoders[e], k, m)
        <==> (k < 2 && Target(encoders[e], k) == (m.row, m.col)
          && Back(codec, ActionAt(layer, m.row, m.col)) == Some(m.action))
    {
      ValueBack(codec, layer, encoders[e], k, m);
    }
    if IsTarget(encoders, m.row, m.col) && Back(codec, ActionAt(layer, m.row, m.col)) == Some(m.action) {
      var e: nat :| e < |encoders| && ((m.row, m.col) == encoders[e].0 || (m.row, m.col) == encoders[e].1);
      var k := if (m.row, m.col) == encoders[e].0 then 0 else 1;
      assert items[e] == ExportedEncoder(codec, layer, encoders[e]);
      assert FromValue(codec, items[e].items, encoders[e], k, m);
      assert FromEncoder(codec, items, encoders, e, m);
    }
    if e: nat :| FromEncoder(codec, items, encoders, e, m) {
      var k: nat :| FromValue(codec, items[e].items, encoders[e], k, m);
      assert items[e] == ExportedEncoder(codec, layer, encoders[e]);
      assert encoders[e] in encoders;
    }
  }

  /** An exported document can be read, and its settings and uid come back as they were. */
  lemma ExportIsReadable(codec: Codec, uid: int, layout: seq<Json>, turns: seq<Json>, warnings: seq<Json>,
                         extras: Extras, others: map<string, Json>)
    requires ReadsNumbers(codec)
    ensures var document := Document(uid, layout, turns, Settings(warnings, extras), others);
      && Readable(codec, document) && UidOf(codec, document) == Some(uid)
      && ReadExtras(Field(document, "settings", Object(map[]))) == extras
      && Field(document, "layout", Items([])) == Items(layout)
      && Field(document, "encoder_layout", Items([])) == Items(turns)
  {
    assert codec.integer(Number(VIL_VERSION)) == Some(VIL_VERSION) && codec.integer(Number(uid)) == Some(uid);
  }

  /** Importing an export: exactly the exported positions whose keycode names an action get that
      action, also where encoder targets lie in the matrix; all else stays as it was. */
  lemma ExportImport(codec: Codec, uid: int, rows: nat, cols: nat, layers: seq<Layer>,
                     encoders: seq<Encoder>, warnings: seq<Json>, extras: Extras, others: map<string, Json>,
                     keymap: Keymap, l: nat, row: int, col: int)
    requires ReadsNumbers(codec)
    ensures var document := Document(uid, ExportedLayout(codec, layers, rows, cols),
        ExportedTurns(codec, layers, encoders), Settings(warnings, extras), others);
      var after, p := Apply(keymap, Asks(codec, document, rows, cols, encoders)), (l, row, col);
      if l < |layers| && IsExported(rows, cols, encoders, row, col) && Back(codec, ActionAt(layers[l], row, col)).Some?
      then p in after && after[p] == Back(codec, ActionAt(layers[l], row, col)).value
      else (p in after <==> p in keymap) && (p in keymap ==> after[p] == keymap[p])
  {
    hide ActionAt, Back, Readable, UidOf, ReadExtras, FromCell, FromTurn, ReadsNumbers, Apply, ExportedLayer,
      ExportedEncoders, IsTarget;
    var layout, layoutTurns := ExportedLayout(codec, layers, rows, cols), ExportedTurns(codec, layers, encoders);
    ExportIsReadable(codec, uid, layout, layoutTurns, warnings, extras, others);
    var document := Document(uid, layout, layoutTurns, Settings(warnings, extras), others);
    var remaps, p := Asks(codec, document, rows, cols, encoders), (l, row, col);
    forall m | Place(m) == p
      ensures m in remaps <==> (
        && l < |layers| && IsExported(rows, cols, encoders, row, col)
        && Back(codec, ActionAt(layers[l], row, col)) == Some(m.action))
    {
      RemapBack(codec, layers, rows, cols, encoders, layout, layoutTurns, m);
    }
    if l < |layers| && IsExported(rows, cols, encoders, row, col) && Back(codec, ActionAt(layers[l], row, col)).Some? {
      var action := Back(codec, ActionAt(layers[l], row, col)).value;
      assert Remap(l, row, col, action) in remaps && Place(Remap(l, row, col, action)) == p;
      ApplySays(keymap, remaps, p, action);
    } else {
      ApplyElsewhere(keymap, remaps, p);
    }
  }

  lemma RemapBack(codec: Codec, layers: seq<Layer>, rows: nat, cols: nat, encoders: seq<Encoder>, layout: seq<Json>,
                  layoutTurns: seq<Json>, m: Remap)
    requires ReadsNumbers(codec)
    requires layout == ExportedLayout(codec, layers, rows, cols)
      && layoutTurns == ExportedTurns(codec, layers, encoders)
    ensures var found, turns := LayoutRemaps(codec, layout, |layout|, rows, cols),
        TurnsRemaps(codec, layoutTurns, |layoutTurns|, encoders);
      m in found + turns <==> (
      && m.layer < |layers| && IsExported(rows, cols, encoders, m.row, m.col)
      && Back(codec, ActionAt(layers[m.layer], m.row, m.col)) == Some(m.action))
  {
    hide ActionAt, Back, FromCell, FromTurn, ReadsNumbers, ExportedLayer, ExportedEncoders, IsTarget,
      LayoutRemaps, TurnsRemaps;
    LayoutRemapsMean(codec, layout, |layout|, rows, cols, m);
    TurnsRemapsMean(codec, layoutTurns, |layoutTurns|, encoders, m);
    if m.layer < |layers| {
      CellBack(codec, layers[m.layer], rows, cols, m);
      TurnBack(codec, layers[m.layer], encoders, m);
    }
  }

  /** A changed position is restored exactly when the codec gives its action back. */
  lemma RestoredExactly(codec: Codec, uid: int, rows: nat, cols: nat, layers: seq<Layer>,
                        encoders: seq<Encoder>, warnings: seq<Json>, extras: Extras, others: map<string, Json>,
                        keymap: Keymap, l: nat, row: int, col: int)
    requires ReadsNumbers(codec)
    requires l < |layers| && IsExported(rows, cols, encoders, row, col)
    requires (l, row, col) in keymap ==> keymap[(l, row, col)] != ActionAt(layers[l], row, col)
    ensures var document := Document(uid, ExportedLayout(codec, layers, rows, cols),
        ExportedTurns(codec, layers, encoders), Settings(warnings, extras), others);
      var after := Apply(keymap, Asks(codec, document, rows, cols, encoders));
      var p, action := (l, row, col), ActionAt(layers[l], row, col);
      (p in after && after[p] == action) <==> Back(codec, action) == Some(action)
  {
    hide *;
    ExportImport(codec, uid, rows, cols, layers, encoders, warnings, extras, others, keymap, l, row, col);
  }
}
