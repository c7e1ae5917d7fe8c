/** The exporter (GMExporter): export types and their extensions, the
    extension check, the builder, and `export`, which deletes, creates and
    appends the serialised text line by line to an in-memory file. The JSON
    serialiser is not part of this model and is a parameter. */
module Exporter {
  import opened Wrappers
  import opened MetricStore
  import opened TextLines
  import opened FileStore
  import ExporterTxt

  datatype ExportType = JSON | TXT
  {
    function Extension(): (ext: string)
      ensures '.' !in ext
      ensures forall i :: 0 <= i < |ext| ==> 'a' <= ext[i] <= 'z'
    {
      match this
      case JSON => "json"
      case TXT => "txt"
    }

    /** The media type; only TXT is plain text. */
    function ContentType(): (r: string)
      ensures r == "text/plain" <==> this == TXT
    {
      match this
      case JSON => "application/json"
      case TXT => "text/plain"
    }

    function Name(): string
    {
      match this
      case JSON => "JSON"
      case TXT => "TXT"
    }
  }

  /** The extension of a file name: the text after its last '.', or "" without one. */
  function NameExtension(name: string): (ext: string)
    ensures '.' !in ext
    ensures |ext| <= |name| && ext == name[|name| - |ext|..]
    ensures '.' !in name ==> ext == ""
    ensures name != [] && name[|name| - 1] == '.' ==> ext == ""
    ensures '.' in name ==> |ext| < |name| && name[|name| - |ext| - 1] == '.'
  {
    if name == [] then ""
    else if name[|name| - 1] == '.' then ""
    else if '.' !in name then ""
    else NameExtension(name[..|name| - 1]) + [name[|name| - 1]]
  }

  /** StringUtils.getFileExtension(path.toFile()). */
  function FileExtension(p: Path): (ext: string)
    ensures '.' !in ext
    ensures |ext| <= |p.fileName| && ext == p.fileName[|p.fileName| - |ext|..]
    ensures '.' !in p.fileName ==> ext == ""
  {
    NameExtension(p.fileName)
  }

  /** A dot followed by a dot-free extension fixes the extension, whatever precedes it. */
  lemma NameExtensionOfSuffix(base: string, ext: string)
    requires '.' !in ext && ext != []
    ensures NameExtension(base + "." + ext) == ext
  {
    var name := base + "." + ext;
    var r := NameExtension(name);
    assert name[|base|] == '.';
    assert name[|base| + 1..] == ext;
    // A longer extension would contain the dot before `ext`; a shorter one
    // would be preceded by a character of `ext`, which is no dot.
    assert |r| == |ext|;
  }

  function ToLowerAscii(c: char): char
  {
    if 'A' <= c <= 'Z' then (c as int + 32) as char else c
  }

  /** String.equalsIgnoreCase, for ASCII letters. */
  predicate EqualsIgnoreCase(a: string, b: string)
    ensures EqualsIgnoreCase(a, b) <==> LowerAscii(a) == LowerAscii(b)
  {
    assert LowerAscii(a) == LowerAscii(b) ==> forall i :: 0 <= i < |a| ==> ToLowerAscii(a[i]) == ToLowerAscii(b[i]) by {
      if LowerAscii(a) == LowerAscii(b) {
        forall i | 0 <= i < |a| ensures ToLowerAscii(a[i]) == ToLowerAscii(b[i]) {
          assert LowerAscii(a)[i] == LowerAscii(b)[i];
        }
      }
    }
    |a| == |b| && forall i :: 0 <= i < |a| ==> ToLowerAscii(a[i]) == ToLowerAscii(b[i])
  }

  /** accept: the path's extension equals the type's extension, ignoring case. */
  predicate Accept(p: Path, t: ExportType)
    ensures Accept(p, t) ==>
              var n := p.fileName;
              |t.Extension()| < |n| && n[|n| - |t.Extension()| - 1] == '.'
  {
    EqualsIgnoreCase(t.Extension(), FileExtension(p))
  }

  function LowerAscii(s: string): (r: string)
    ensures |r| == |s| && forall i :: 0 <= i < |s| ==> r[i] == ToLowerAscii(s[i])
  {
    if s == [] then [] else [ToLowerAscii(s[0])] + LowerAscii(s[1..])
  }

  /** A path is accepted exactly when its extension, lower-cased, is the type's
      extension; so no path is accepted for both types. */
  lemma AcceptIffLowerExtension(p: Path, t: ExportType)
    ensures Accept(p, t) <==> LowerAscii(FileExtension(p)) == t.Extension()
    ensures !(Accept(p, JSON) && Accept(p, TXT))
  {
    var ext := t.Extension();
    var fe := FileExtension(p);
    if Accept(p, t) {
      assert forall i :: 0 <= i < |ext| ==> ToLowerAscii(ext[i]) == ext[i];
      assert LowerAscii(fe) == ext;
    }
    if LowerAscii(fe) == ext {
      forall i | 0 <= i < |ext| ensures ToLowerAscii(ext[i]) == ToLowerAscii(fe[i]) {
        assert LowerAscii(fe)[i] == ToLowerAscii(fe[i]);
      }
    }
  }

  /** A file named `<anything>.<ext>` is accepted for the type with that extension, in any letter case. */
  lemma AcceptDotExtension(absolute: bool, dirs: seq<string>, base: string, t: ExportType, ext: string)
    requires LowerAscii(ext) == t.Extension()
    ensures Accept(Path(absolute, dirs, base + "." + ext), t)
  {
    NameExtensionOfSuffix(base, ext);
    AcceptIffLowerExtension(Path(absolute, dirs, base + "." + ext), t);
  }

  /** GMExporterJSON or GMExporterTXT: the type decides the serialiser. */
  class Exporter {
    const exportType: ExportType
    var metrics: seq<MetricView>
    var exportPath: Option<Path>

    constructor (exportType: ExportType)
      ensures this.exportType == exportType && metrics == [] && exportPath == None
    {
      this.exportType := exportType;
      metrics := [];
      exportPath := None;
    }

    /** The text `serialize(metrics)` builds: the serialiser of the exporter's
        type; the text one is empty exactly when there are no metrics. */
    function SerializedText(quotate: Value -> string, json: seq<MetricView> -> string): (r: string)
      reads this
      ensures exportType == JSON ==> r == json(metrics)
      ensures exportType == TXT ==> (r == "" <==> metrics == [])
    {
      assert exportType == TXT && metrics != [] ==> ExporterTxt.MetricsText(metrics, quotate) != "" by {
        if exportType == TXT && metrics != [] {
          var ls := ExporterTxt.AllLines(metrics, quotate);
          assert ls != [];
          var n := |ls|;
          assert ls[..n - 1] + [ls[n - 1]] == ls;
          JoinAppend(ls[..n - 1], [ls[n - 1]]);
          JoinOne(ls[n - 1]);
        }
      }
      match exportType
      case TXT => ExporterTxt.MetricsText(metrics, quotate)
      case JSON => json(metrics)
    }

    /** export: refuse a null path or a wrong extension before touching the
        file system; then delete the file, create its parent directories and
        the file, and append each line of the serialised text followed by the
        separator. */
    method Export(fs: FileSystem, quotate: Value -> string, json: seq<MetricView> -> string)
      returns (r: Result<Path, string>)
      modifies fs
      ensures exportPath.None? ==> r.Err? && unchanged(fs)
      ensures exportPath.Some? && !Accept(exportPath.value, exportType) ==> r.Err? && unchanged(fs)
      ensures exportPath.Some? && Accept(exportPath.value, exportType) && Parent(exportPath.value).None? ==>
                && r.Err? && fs.files == old(fs.files) - {exportPath.value} && fs.dirs == old(fs.dirs)
      ensures exportPath.Some? && Accept(exportPath.value, exportType) && Parent(exportPath.value).Some? ==>
                && r == Ok(exportPath.value)
                && fs.files == old(fs.files)[exportPath.value := Join(SplitLines(SerializedText(quotate, json)))]
                && fs.dirs == old(fs.dirs) + Ancestors(Parent(exportPath.value).value)
    {
      if exportPath.None? {
        return Err("NullPointerException");
      }
      var p := exportPath.value;
      if !Accept(p, exportType) {
        return Err("Only " + exportType.Name() + " Files ( *." + exportType.Extension() + ")");
      }
      var text;
      if exportType == TXT {
        text := ExporterTxt.Serialize(metrics, quotate);
      } else {
        text := json(metrics);
      }
      var writeError := Rewrite(fs, p, text);
      if writeError.Some? {
        return Err(writeError.value);
      }
      r := Ok(p);
    }

    /** The file-system steps of export: delete the file, create its parent
        directories and the file, then write `text` line by line. The text is
        serialised after the file is created in GMExporter.export; nothing in
        between depends on it. */
    method Rewrite(fs: FileSystem, p: Path, text: string) returns (error: Option<string>)
      modifies fs
      ensures Parent(p).None? ==> error.Some? && fs.files == old(fs.files) - {p} && fs.dirs == old(fs.dirs)
      ensures Parent(p).Some? ==>
                && error.None?
                && fs.files == old(fs.files)[p := Join(SplitLines(text))]
                && fs.dirs == old(fs.dirs) + Ancestors(Parent(p).value)
    {
      fs.DeleteIfExists(p);
      ghost var deleted := fs.files;
      error := fs.CreateDirectories(Parent(p));
      if error.Some? {
        return;
      }
      // The file was just deleted, so creating it succeeds.
      assert p !in fs.files;
      var _ := fs.CreateFile(p);
      var lines := SplitLines(text);
      ghost var content := Join(lines);
      WriteLines(fs, p, lines);
      assert "" + content == content;
      assert fs.files == deleted[p := ""][p := content];
      ReplaceAfterDelete(old(fs.files), p, "", content);
    }

    /** Deleting, creating and then overwriting an entry is one overwrite. */
    static lemma ReplaceAfterDelete(m: map<Path, string>, p: Path, a: string, b: string)
      ensures (m - {p})[p := a][p := b] == m[p := b]
    {
    }

    /** The forEachOrdered of export: append each line and a separator through writeLineToFile. */
    method WriteLines(fs: FileSystem, p: Path, lines: seq<string>)
      requires p in fs.files
      modifies fs
      ensures fs.files == old(fs.files)[p := old(fs.files)[p] + Join(lines)]
      ensures fs.dirs == old(fs.dirs)
    {
      ghost var start := fs.files[p];
      var i := 0;
      assert lines[..0] == [] && start + Join([]) == start;
      assert fs.files == old(fs.files)[p := start + Join(lines[..0])];
      while i < |lines|
        invariant 0 <= i <= |lines|
        invariant fs.files == old(fs.files)[p := start + Join(lines[..i])]
        invariant fs.dirs == old(fs.dirs)
      {
        assert lines[..i + 1] == lines[..i] + [lines[i]];
        JoinAppend(lines[..i], [lines[i]]);
        JoinOne(lines[i]);
        assert start + Join(lines[..i + 1]) == start + Join(lines[..i]) + (lines[i] + LineSeparator);
        fs.AppendLine(p, lines[i] + LineSeparator);
        i := i + 1;
      }
      assert lines[..i] == lines;
    }
  }

  /** createExporter: an exporter of the requested type. */
  method CreateExporter(t: ExportType) returns (e: Exporter)
    ensures fresh(e) && e.exportType == t && e.metrics == [] && e.exportPath == None
  {
    e := new Exporter(t);
  }

  /** The file a text export leaves behind: the serialised text without its
      final separator (splitAsStream drops the trailing empty piece), or one
      separator for no metrics. Split again, it still holds one begin and one
      end marker per metric. */
  lemma TxtExportContent(ms: seq<MetricView>, quotate: Value -> string)
    requires forall i :: 0 <= i < |ms| ==> ExporterTxt.SingleLine(ms[i], quotate)
    ensures var text := ExporterTxt.MetricsText(ms, quotate);
      && (ms == [] ==> Join(SplitLines(text)) == LineSeparator)
      && (ms != [] ==> |text| > 0 && Join(SplitLines(text)) == text[..|text| - 1])
    ensures Count(SplitLines(Join(SplitLines(ExporterTxt.MetricsText(ms, quotate)))), ExporterTxt.BeginMarker) == |ms|
    ensures Count(SplitLines(Join(SplitLines(ExporterTxt.MetricsText(ms, quotate)))), ExporterTxt.EndMarker) == |ms|
  {
    var text := ExporterTxt.MetricsText(ms, quotate);
    if ms == [] {
      assert text == "";
      SplitLinesEmpty();
      assert Count([""], ExporterTxt.BeginMarker) == 0 && Count([""], ExporterTxt.EndMarker) == 0;
    } else {
      var lines := ExporterTxt.AllLines(ms, quotate);
      var front := lines[..|lines| - 1];
      ExporterTxt.TextSplitsIntoBlocks(ms, quotate);
      ExporterTxt.AllLinesNoNewline(ms, quotate);
      assert lines == front + [""];
      JoinAppend(front, [""]);
      JoinOne("");
      assert text == Join(front) + LineSeparator;
      assert front[|front| - 1] == ExporterTxt.EndMarker;
      SplitLinesJoin(front);
    }
  }

  /** GMExporter.Builder: the metrics to export, and either a chosen path or the file chooser. */
  class Builder {
    const exportType: ExportType
    var metrics: seq<MetricView>
    var withFileChooser: bool
    var chosenPath: Option<Path>

    /** GMExporter.of(exportType). */
    constructor (exportType: ExportType)
      ensures this.exportType == exportType && metrics == [] && !withFileChooser && chosenPath == None
    {
      this.exportType := exportType;
      metrics := [];
      withFileChooser := false;
      chosenPath := None;
    }

    method AddMetric(m: MetricView)
      modifies this
      ensures metrics == old(metrics) + [m]
      ensures withFileChooser == old(withFileChooser) && chosenPath == old(chosenPath)
    {
      metrics := metrics + [m];
    }

    method AddMetrics(ms: seq<MetricView>)
      modifies this
      ensures metrics == old(metrics) + ms
      ensures withFileChooser == old(withFileChooser) && chosenPath == old(chosenPath)
    {
      metrics := metrics + ms;
    }

    /** withFileChooser: the chooser decides the path; any chosen path is dropped. */
    method WithFileChooser()
      modifies this
      ensures withFileChooser && chosenPath == None && metrics == old(metrics)
    {
      withFileChooser := true;
      chosenPath := None;
    }

    /** toPath: this path decides; the chooser is switched off. */
    method ToPath(destination: Option<Path>)
      modifies this
      ensures !withFileChooser && chosenPath == destination && metrics == old(metrics)
    {
      chosenPath := destination;
      withFileChooser := false;
    }

    /** build: an exporter of the builder's type holding its metrics and path.
        With the chooser, `chooserPath` is the temporary file the chooser branch
        yields, or the error it raises. */
    method Build(chooserPath: Result<Path, string>) returns (r: Result<Exporter, string>)
      ensures !withFileChooser ==>
                && r.Ok? && fresh(r.value)
                && r.value.exportType == exportType && r.value.metrics == metrics
                && r.value.exportPath == chosenPath
      ensures withFileChooser && chooserPath.Err? ==> r == Err(chooserPath.error)
      ensures withFileChooser && chooserPath.Ok? ==>
                && r.Ok? && fresh(r.value)
                && r.value.exportType == exportType && r.value.metrics == metrics
                && r.value.exportPath == Some(chooserPath.value)
    {
      var path: Option<Path>;
      if withFileChooser {
        if chooserPath.Err? {
          return Err(chooserPath.error);
        }
        path := Some(chooserPath.value);
      } else {
        path := chosenPath;
      }
      var exporter := CreateExporter(exportType);
      exporter.exportPath := path;
      exporter.metrics := metrics;
      r := Ok(exporter);
    }
  }
}
