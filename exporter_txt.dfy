/** The plain-text exporter (GMExporterTXT): one block per metric, delimited
    by begin and end markers, holding the `name` entry and one `key: value`
    line per stored value; every block is followed by an empty line.
    StringUtils.quotate is not part of this model and is a parameter. */
module ExporterTxt {
  import opened MetricStore
  import opened TextLines

  const BeginMarker: string := "--- BEGIN METRIC"
  const EndMarker: string := "--- END METRIC"
  const KeyValueSep: string := ": "

  /** One `key: value` line, without its separator. */
  function FormatLine(key: string, value: Value, quotate: Value -> string): string
  {
    key + KeyValueSep + quotate(value)
  }

  /** format(key, value): the line and its separator; a single-line entry
      splits back into exactly its line. */
  function Format(key: string, value: Value, quotate: Value -> string): (r: string)
    ensures |r| == |key| + |KeyValueSep| + |quotate(value)| + |LineSeparator|
    ensures r[..|key|] == key && r[|key|..|key| + |KeyValueSep|] == KeyValueSep
    ensures r[|key| + |KeyValueSep|..|r| - 1] == quotate(value) && r[|r| - 1..] == LineSeparator
    ensures NoNewline(FormatLine(key, value, quotate)) ==> SplitLines(r) == [FormatLine(key, value, quotate)]
  {
    var line := FormatLine(key, value, quotate);
    assert NoNewline(line) ==> SplitLines(line + LineSeparator) == [line] by {
      if NoNewline(line) {
        assert line[|key|] == ':';
        JoinOne(line);
        SplitLinesJoin([line]);
      }
    }
    line + LineSeparator
  }

  function NameLine(m: MetricView, quotate: Value -> string): string
  {
    FormatLine("name", TextValue(m.name), quotate)
  }

  function ValueLines(vs: seq<MetricValue>, quotate: Value -> string): (r: seq<string>)
    ensures |r| == |vs|
    ensures forall i :: 0 <= i < |vs| ==> r[i] == FormatLine(vs[i].key.name, vs[i].value, quotate)
  {
    if vs == [] then []
    else ValueLines(vs[..|vs| - 1], quotate) + [FormatLine(vs[|vs| - 1].key.name, vs[|vs| - 1].value, quotate)]
  }

  /** The lines of one metric's block. */
  function BlockLines(m: MetricView, quotate: Value -> string): seq<string>
  {
    [BeginMarker, NameLine(m, quotate)] + ValueLines(m.values, quotate) + [EndMarker]
  }

  /** The lines of the whole text: every block followed by one empty line. */
  function AllLines(ms: seq<MetricView>, quotate: Value -> string): seq<string>
  {
    if ms == [] then []
    else AllLines(ms[..|ms| - 1], quotate) + BlockLines(ms[|ms| - 1], quotate) + [""]
  }

  /** serializeMetric, as a value. */
  function MetricText(m: MetricView, quotate: Value -> string): string
  {
    Join(BlockLines(m, quotate))
  }

  /** serialize, as a value. */
  function MetricsText(ms: seq<MetricView>, quotate: Value -> string): string
  {
    Join(AllLines(ms, quotate))
  }

  /** Every line of a key/value entry holds a ':', which neither marker does. */
  lemma FormatLineIsNoMarker(key: string, value: Value, quotate: Value -> string)
    ensures FormatLine(key, value, quotate) != BeginMarker
    ensures FormatLine(key, value, quotate) != EndMarker
  {
    var l := FormatLine(key, value, quotate);
    assert l[|key|] == ':';
    assert ':' !in BeginMarker && ':' !in EndMarker;
  }

  /** A block opens with the begin marker, whose next line is the `name` entry,
      then one line per stored value in store order, and closes with the end marker. */
  lemma BlockShape(m: MetricView, quotate: Value -> string)
    ensures var b := BlockLines(m, quotate);
      && |b| == |m.values| + 3
      && b[0] == BeginMarker && b[1] == FormatLine("name", TextValue(m.name), quotate)
      && b[|b| - 1] == EndMarker
      && (forall i :: 0 <= i < |m.values| ==> b[i + 2] == FormatLine(m.values[i].key.name, m.values[i].value, quotate))
  {
  }

  /** A block contains the begin marker once and the end marker once. */
  lemma {:induction false} BlockMarkers(m: MetricView, quotate: Value -> string)
    ensures Count(BlockLines(m, quotate), BeginMarker) == 1
    ensures Count(BlockLines(m, quotate), EndMarker) == 1
  {
    ValueLinesNoMarker(m.values, quotate);
    FormatLineIsNoMarker("name", TextValue(m.name), quotate);
    var head := [BeginMarker, NameLine(m, quotate)];
    assert [BeginMarker, NameLine(m, quotate)][..1] == [BeginMarker];
    CountAppend(head, ValueLines(m.values, quotate), BeginMarker);
    CountAppend(head + ValueLines(m.values, quotate), [EndMarker], BeginMarker);
    CountAppend(head, ValueLines(m.values, quotate), EndMarker);
    CountAppend(head + ValueLines(m.values, quotate), [EndMarker], EndMarker);
  }

  lemma {:induction false} ValueLinesNoMarker(vs: seq<MetricValue>, quotate: Value -> string)
    ensures Count(ValueLines(vs, quotate), BeginMarker) == 0
    ensures Count(ValueLines(vs, quotate), EndMarker) == 0
  {
    if vs != [] {
      var front := vs[..|vs| - 1];
      ValueLinesNoMarker(front, quotate);
      FormatLineIsNoMarker(vs[|vs| - 1].key.name, vs[|vs| - 1].value, quotate);
      var r := ValueLines(vs, quotate);
      assert r[..|r| - 1] == ValueLines(front, quotate);
    }
  }

  /** The text holds exactly as many begin markers and end markers as metrics. */
  lemma {:induction false} MarkerCounts(ms: seq<MetricView>, quotate: Value -> string)
    ensures Count(AllLines(ms, quotate), BeginMarker) == |ms|
    ensures Count(AllLines(ms, quotate), EndMarker) == |ms|
  {
    if ms != [] {
      var front := ms[..|ms| - 1];
      var b := BlockLines(ms[|ms| - 1], quotate);
      MarkerCounts(front, quotate);
      BlockMarkers(ms[|ms| - 1], quotate);
      CountAppend(AllLines(front, quotate), b, BeginMarker);
      CountAppend(AllLines(front, quotate) + b, [""], BeginMarker);
      CountAppend(AllLines(front, quotate), b, EndMarker);
      CountAppend(AllLines(front, quotate) + b, [""], EndMarker);
    }
  }

  lemma {:induction false} AllLinesAppend(a: seq<MetricView>, b: seq<MetricView>, quotate: Value -> string)
    ensures AllLines(a + b, quotate) == AllLines(a, quotate) + AllLines(b, quotate)
  {
    if b == [] {
      assert a + b == a;
    } else {
      var front := b[..|b| - 1];
      var last := b[|b| - 1];
      var tail := BlockLines(last, quotate) + [""];
      assert (a + b)[..|a + b| - 1] == a + front && (a + b)[|a + b| - 1] == last;
      assert AllLines(a + b, quotate) == AllLines(a + front, quotate) + tail;
      assert AllLines(b, quotate) == AllLines(front, quotate) + tail;
      AllLinesAppend(a, front, quotate);
      assert AllLines(a + front, quotate) == AllLines(a, quotate) + AllLines(front, quotate);
    }
  }

  /** Serialisation distributes over concatenation, and no metrics give the empty text. */
  lemma SerializeDistributes(a: seq<MetricView>, b: seq<MetricView>, quotate: Value -> string)
    ensures MetricsText(a + b, quotate) == MetricsText(a, quotate) + MetricsText(b, quotate)
    ensures MetricsText([], quotate) == ""
  {
    AllLinesAppend(a, b, quotate);
    JoinAppend(AllLines(a, quotate), AllLines(b, quotate));
  }

  /** A metric with an empty store serialises to the begin marker, the name entry and the end marker. */
  lemma EmptyStoreBlock(name: string, quotate: Value -> string)
    ensures MetricText(MetricView(name, []), quotate)
      == BeginMarker + "\n" + "name: " + quotate(TextValue(name)) + "\n" + EndMarker + "\n"
  {
    var b := BlockLines(MetricView(name, []), quotate);
    assert ValueLines([], quotate) == [];
    assert "name" + KeyValueSep == "name: ";
    assert b == [BeginMarker, "name: " + quotate(TextValue(name)), EndMarker];
    assert b == [BeginMarker] + [b[1]] + [EndMarker];
    JoinAppend([BeginMarker] + [b[1]], [EndMarker]);
    JoinAppend([BeginMarker], [b[1]]);
    JoinOne(BeginMarker);
    JoinOne(b[1]);
    JoinOne(EndMarker);
  }

  /** No line of the text contains a separator: names, key names and quotated values are single-line. */
  predicate SingleLine(m: MetricView, quotate: Value -> string)
  {
    && NoNewline(quotate(TextValue(m.name)))
    && forall i :: 0 <= i < |m.values| ==> NoNewline(m.values[i].key.name) && NoNewline(quotate(m.values[i].value))
  }

  lemma {:induction false} AllLinesNoNewline(ms: seq<MetricView>, quotate: Value -> string)
    requires forall i :: 0 <= i < |ms| ==> SingleLine(ms[i], quotate)
    ensures forall i :: 0 <= i < |AllLines(ms, quotate)| ==> NoNewline(AllLines(ms, quotate)[i])
  {
    if ms != [] {
      AllLinesNoNewline(ms[..|ms| - 1], quotate);
      var m := ms[|ms| - 1];
      var b := BlockLines(m, quotate);
      assert SingleLine(m, quotate);
      forall i | 0 <= i < |b| ensures NoNewline(b[i]) {
        if i == 1 {
          assert b[1] == "name" + KeyValueSep + quotate(TextValue(m.name));
        } else if 2 <= i < |b| - 1 {
          assert b[i] == m.values[i - 2].key.name + KeyValueSep + quotate(m.values[i - 2].value);
        }
      }
    }
  }

  /** Splitting the text of one or more single-line metrics back into lines
      gives every line but the final empty one; the begin and end markers
      among them still number one per metric. */
  lemma TextSplitsIntoBlocks(ms: seq<MetricView>, quotate: Value -> string)
    requires ms != []
    requires forall i :: 0 <= i < |ms| ==> SingleLine(ms[i], quotate)
    ensures var lines := AllLines(ms, quotate);
      && SplitLines(MetricsText(ms, quotate)) == lines[..|lines| - 1]
      && Count(lines[..|lines| - 1], BeginMarker) == |ms|
      && Count(lines[..|lines| - 1], EndMarker) == |ms|
  {
    var lines := AllLines(ms, quotate);
    AllLinesNoNewline(ms, quotate);
    SplitLinesJoin(lines);
    MarkerCounts(ms, quotate);
    assert lines[|lines| - 2] == EndMarker;
    assert DropTrailingEmpty(lines) == DropTrailingEmpty(lines[..|lines| - 1]);
    assert DropTrailingEmpty(lines[..|lines| - 1]) == lines[..|lines| - 1];
  }

  // ---------------------------------------------------------------------------
  // The StringBuilder loops of GMExporterTXT.

  /** serializeMetric: append the begin marker, the name entry, each value's entry and the end marker. */
  method SerializeMetric(m: MetricView, quotate: Value -> string) returns (sb: string)
    ensures sb == MetricText(m, quotate)
  {
    sb := BeginMarker + LineSeparator;
    var nameEntry := Format("name", TextValue(m.name), quotate);
    assert nameEntry == NameLine(m, quotate) + LineSeparator;
    sb := sb + nameEntry;
    var i := 0;
    assert m.values[..0] == [] && ValueLines([], quotate) == [];
    assert [BeginMarker, NameLine(m, quotate)] == [BeginMarker] + [NameLine(m, quotate)];
    JoinAppend([BeginMarker], [NameLine(m, quotate)]);
    JoinOne(BeginMarker);
    JoinOne(NameLine(m, quotate));
    while i < |m.values|
      invariant 0 <= i <= |m.values|
      invariant sb == Join([BeginMarker, NameLine(m, quotate)] + ValueLines(m.values[..i], quotate))
    {
      var v := m.values[i];
      assert m.values[..i + 1][..i] == m.values[..i];
      JoinAppend([BeginMarker, NameLine(m, quotate)] + ValueLines(m.values[..i], quotate),
                 [FormatLine(v.key.name, v.value, quotate)]);
      assert [BeginMarker, NameLine(m, quotate)] + ValueLines(m.values[..i + 1], quotate)
          == [BeginMarker, NameLine(m, quotate)] + ValueLines(m.values[..i], quotate) + [FormatLine(v.key.name, v.value, quotate)];
      JoinOne(FormatLine(v.key.name, v.value, quotate));
      var entry := Format(v.key.name, v.value, quotate);
      assert entry == FormatLine(v.key.name, v.value, quotate) + LineSeparator;
      sb := sb + entry;
      i := i + 1;
    }
    assert m.values[..i] == m.values;
    JoinAppend([BeginMarker, NameLine(m, quotate)] + ValueLines(m.values, quotate), [EndMarker]);
    JoinOne(EndMarker);
    sb := sb + EndMarker + LineSeparator;
  }

  /** serialize: append each metric's block and one more separator, in order. */
  method Serialize(ms: seq<MetricView>, quotate: Value -> string) returns (sb: string)
    ensures sb == MetricsText(ms, quotate)
  {
    sb := "";
    var i := 0;
    while i < |ms|
      invariant 0 <= i <= |ms|
      invariant sb == MetricsText(ms[..i], quotate)
    {
      var block := SerializeMetric(ms[i], quotate);
      assert ms[..i + 1][..i] == ms[..i];
      JoinAppend(AllLines(ms[..i], quotate) + BlockLines(ms[i], quotate), [""]);
      JoinAppend(AllLines(ms[..i], quotate), BlockLines(ms[i], quotate));
      JoinOne("");
      sb := sb + block + LineSeparator;
      i := i + 1;
    }
    assert ms[..i] == ms;
  }
}
