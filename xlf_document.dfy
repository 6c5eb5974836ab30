/**
 * An XLIFF document: its `<file>` elements in document order, the namespace prefixes
 * declared on the root, and the dialect detected at load. `SaveAsResX` turns every
 * trans-unit into a RESX entry and hands the list to the RESX serializer.
 */
module XlfDocument {
  import opened Wrappers
  import opened XlfDialect
  import opened Sequences
  import opened XlfTransUnit
  import opened XlfFile
  import opened ResXEntry
  import ResXFile

  const ToolIdToolkit := "MultilingualAppToolkit"
  const PrefixRwt := "rwt"
  const NamespaceRwt := "http://www.schaudin.com/xmlns/rwt11"

  datatype DocError =
    | NoFile     // InvalidOperationException from `First`/`Last` on a document without files
    | MissingId  // NullReferenceException from `GetId` on a unit without `id`

  /** `ResXSaveOption`: the SortEntries and IncludeComments flags. */
  datatype SaveOptions = SaveOptions(sortEntries: bool, includeComments: bool)

  /**
   * `DetermineDialect`: the toolkit dialect when the first file's `tool-id` is exactly
   * "MultilingualAppToolkit"; else RCWinTrans11 when the root binds `rwt` to the
   * RCWinTrans namespace; else Standard. A document without files fails.
   */
  function DetermineDialect(files: seq<XlfFile>, rootNamespaces: map<string, string>): (r: Result<Dialect, DocError>)
    ensures r.Err? <==> files == []
    ensures r.Err? ==> r.error == NoFile
    ensures r.Ok? ==> (r.value == MultilingualAppToolkit <==> files[0].ToolId() == ToolIdToolkit)
    ensures r.Ok? ==>
      (r.value == RCWinTrans11 <==>
        files[0].ToolId() != ToolIdToolkit && PrefixRwt in rootNamespaces && rootNamespaces[PrefixRwt] == NamespaceRwt)
  {
    if files == [] then Err(NoFile)
    else if files[0].ToolId() == ToolIdToolkit then Ok(MultilingualAppToolkit)
    else if PrefixRwt in rootNamespaces && rootNamespaces[PrefixRwt] == NamespaceRwt then Ok(RCWinTrans11)
    else Ok(Standard)
  }

  /** The detected dialect depends only on the first file's attributes and the root's namespace declarations. */
  lemma DetermineDialectDependsOnFirstFile(a: seq<XlfFile>, b: seq<XlfFile>, ns: map<string, string>)
    requires a != [] && b != [] && a[0].attrs == b[0].attrs
    ensures DetermineDialect(a, ns) == DetermineDialect(b, ns)
  {
  }

  /** `RemoveFile(original)`: the files kept are exactly those whose `original` is missing or different. */
  function FilesWithout(files: seq<XlfFile>, original: string): (r: seq<XlfFile>)
    ensures forall i :: 0 <= i < |r| ==> r[i] in files && r[i].Original() != Some(original)
    ensures forall i :: 0 <= i < |files| && files[i].Original() != Some(original) ==> files[i] in r
  {
    Filter(files, (f: XlfFile) => f.Original() != Some(original))
  }

  /** Every trans-unit of the document: file order, then unit order within each file. */
  function AllUnits(files: seq<XlfFile>): seq<TransUnit>
    reads files
  {
    if files == [] then [] else AllUnits(files[..|files| - 1]) + files[|files| - 1].units
  }

  /** The units of the first `k` files come first among all units. */
  lemma {:induction false} AllUnitsPrefix(files: seq<XlfFile>, k: nat)
    requires k <= |files|
    ensures AllUnits(files[..k]) <= AllUnits(files)
    decreases |files|
  {
    if k < |files| {
      var init := files[..|files| - 1];
      assert files[..k] == init[..k];
      AllUnitsPrefix(init, k);
    } else {
      assert files[..k] == files;
    }
  }

  /** Entries of a unit list extended by one unit with an id. */
  lemma UnitEntriesSnoc(done: seq<TransUnit>, u: TransUnit, d: Dialect, includeComments: bool)
    requires UnitEntries(done, d, includeComments).Ok? && Id(u).Some?
    ensures UnitEntries(done + [u], d, includeComments)
      == Ok(UnitEntries(done, d, includeComments).value + [ResXEntry(GetId(u, d).value, TargetText(u), CommentFor(u, includeComments))])
  {
    assert (done + [u])[..|done|] == done;
  }

  /** One step of the inner loop of `SaveAsResX`: the next unit's entry is appended. */
  lemma AppendStep(done: seq<TransUnit>, us: seq<TransUnit>, j: nat, acc: seq<ResXEntry>, d: Dialect, includeComments: bool)
    requires j < |us| && Id(us[j]).Some?
    requires UnitEntries(done + us[..j], d, includeComments) == Ok(acc)
    ensures UnitEntries(done + us[..j + 1], d, includeComments)
      == Ok(acc + [ResXEntry(GetId(us[j], d).value, TargetText(us[j]), CommentFor(us[j], includeComments))])
  {
    ExtendSlice(done, us, j);
    UnitEntriesSnoc(done + us[..j], us[j], d, includeComments);
  }

  /** A unit without an id anywhere in the document fails the whole export. */
  lemma MissingIdFails(files: seq<XlfFile>, i: nat, j: nat, d: Dialect, includeComments: bool)
    requires i < |files| && j < |files[i].units| && Id(files[i].units[j]).None?
    ensures UnitEntries(AllUnits(files), d, includeComments) == Err(DocError.MissingId)
  {
    assert files[..i + 1][..i] == files[..i];
    assert AllUnits(files[..i + 1]) == AllUnits(files[..i]) + files[i].units;
    AllUnitsPrefix(files, i + 1);
    var k := |AllUnits(files[..i])| + j;
    assert AllUnits(files)[k] == files[i].units[j];
    UnitEntriesOnePerUnit(AllUnits(files), d, includeComments);
  }

  /** The comment an entry gets: the first note's text with IncludeComments, otherwise "". */
  function CommentFor(u: TransUnit, includeComments: bool): string {
    if includeComments && |u.notes| > 0 then u.notes[0].value else ""
  }

  /** The entries of `SaveAsResX` before sorting, built unit by unit; see UnitEntriesOnePerUnit. */
  function UnitEntries(units: seq<TransUnit>, d: Dialect, includeComments: bool): (r: Result<seq<ResXEntry>, DocError>)
    ensures r.Err? ==> r == Err(DocError.MissingId)
    ensures r.Ok? ==> |r.value| == |units|
  {
    if units == [] then Ok([])
    else
      match UnitEntries(units[..|units| - 1], d, includeComments)
      case Err(e) => Err(e)
      case Ok(es) =>
        var u := units[|units| - 1];
        match GetId(u, d)
        case None => Err(DocError.MissingId)
        case Some(id) => Ok(es + [ResXEntry(id, TargetText(u), CommentFor(u, includeComments))])
  }

  /** A build fails exactly when some unit lacks a raw id, and then with MissingId. */
  lemma {:induction false} UnitEntriesFails(units: seq<TransUnit>, d: Dialect, includeComments: bool)
    ensures var r := UnitEntries(units, d, includeComments);
      && (r.Err? <==> exists i :: 0 <= i < |units| && Id(units[i]).None?)
      && (r.Err? ==> r.error == DocError.MissingId)
    decreases |units|
  {
    if units != [] {
      var init := units[..|units| - 1];
      UnitEntriesFails(init, d, includeComments);
      if UnitEntries(init, d, includeComments).Err? {
        var k :| 0 <= k < |init| && Id(init[k]).None?;
        assert Id(units[k]).None?;
      } else if Id(units[|units| - 1]).Some? {
        forall i | 0 <= i < |units|
          ensures Id(units[i]).Some?
        {
          if i < |init| { assert init[i] == units[i]; }
        }
      }
    }
  }

  /** A successful build has one entry per unit, in order, made from that unit. */
  lemma {:induction false} UnitEntriesShape(units: seq<TransUnit>, d: Dialect, includeComments: bool)
    ensures var r := UnitEntries(units, d, includeComments);
      r.Ok? ==>
        |r.value| == |units|
        && forall i :: 0 <= i < |units| ==>
          GetId(units[i], d).Some? && r.value[i] == ResXEntry(GetId(units[i], d).value, TargetText(units[i]), CommentFor(units[i], includeComments))
    decreases |units|
  {
    if units != [] {
      var init := units[..|units| - 1];
      UnitEntriesShape(init, d, includeComments);
      var r := UnitEntries(units, d, includeComments);
      if r.Ok? {
        var before := UnitEntries(init, d, includeComments);
        var u := units[|units| - 1];
        assert before.Ok? && GetId(u, d).Some?;
        assert r.value == before.value + [ResXEntry(GetId(u, d).value, TargetText(u), CommentFor(u, includeComments))];
        forall i | 0 <= i < |units|
          ensures GetId(units[i], d).Some?
          ensures r.value[i] == ResXEntry(GetId(units[i], d).value, TargetText(units[i]), CommentFor(units[i], includeComments))
        {
          if i < |init| {
            assert init[i] == units[i] && r.value[i] == before.value[i];
          }
        }
      }
    }
  }

  /**
   * One entry per unit, in order, with Id the dialect-resolved id, Value the target text
   * (null without a target) and the comment of CommentFor; a unit without a raw id
   * anywhere makes the whole export fail.
   */
  lemma UnitEntriesOnePerUnit(units: seq<TransUnit>, d: Dialect, includeComments: bool)
    ensures var r := UnitEntries(units, d, includeComments);
      && (r.Err? <==> exists i :: 0 <= i < |units| && Id(units[i]).None?)
      && (r.Err? ==> r.error == DocError.MissingId)
      && (r.Ok? ==>
            |r.value| == |units|
            && forall i :: 0 <= i < |units| ==>
              r.value[i] == ResXEntry(GetId(units[i], d).value, TargetText(units[i]), CommentFor(units[i], includeComments)))
  {
    UnitEntriesFails(units, d, includeComments);
    UnitEntriesShape(units, d, includeComments);
  }

  /** `ResXFile.Write` is told to skip comments unless IncludeComments is set. */
  function WriteOptionFor(options: SaveOptions): (o: ResXFile.WriteOption)
    ensures o.skipComments <==> !options.includeComments
  {
    if options.includeComments then ResXFile.WriteOption(false) else ResXFile.WriteOption(true)
  }

  /**
   * The inner loop of `SaveAsResX`, over one file's units: extends the entries of the units
   * before them, or stops at a unit without an id.
   */
  method AppendEntries(done: seq<TransUnit>, us: seq<TransUnit>, entries: seq<ResXEntry>, d: Dialect, includeComments: bool)
    returns (r: Result<seq<ResXEntry>, DocError>)
    requires UnitEntries(done, d, includeComments) == Ok(entries)
    ensures r.Ok? ==> UnitEntries(done + us, d, includeComments) == r
    ensures r.Err? ==> exists j :: 0 <= j < |us| && Id(us[j]).None?
  {
    var acc := entries;
    var j := 0;
    assert done + us[..j] == done;
    while j < |us|
      invariant 0 <= j <= |us|
      invariant UnitEntries(done + us[..j], d, includeComments) == Ok(acc)
    {
      var u := us[j];
      var id := XlfTransUnit.GetId(u, d);
      if id.None? {
        assert Id(us[j]).None?;
        return Err(DocError.MissingId);
      }
      var entry := ResXEntry(id.value, TargetText(u), "");
      if includeComments && |u.notes| > 0 {
        entry := entry.(comment := u.notes[0].value);
      }
      AppendStep(done, us, j, acc, d, includeComments);
      acc := acc + [entry];
      j := j + 1;
    }
    assert us[..j] == us;
    return Ok(acc);
  }

  class XlfDocument {
    const fileName: string
    /** Prefix to namespace URI, as declared on the root element. */
    const rootNamespaces: map<string, string>
    var files: seq<XlfFile>
    var dialect: Dialect

    constructor Load(fileName: string, rootNamespaces: map<string, string>, files: seq<XlfFile>, dialect: Dialect)
      ensures this.fileName == fileName && this.rootNamespaces == rootNamespaces
      ensures this.files == files && this.dialect == dialect
    {
      this.fileName := fileName;
      this.rootNamespaces := rootNamespaces;
      this.files := files;
      this.dialect := dialect;
    }

    /** The constructor `XlfDocument(fileName)` after loading: detects the dialect, failing without files. */
    static method Open(fileName: string, rootNamespaces: map<string, string>, files: seq<XlfFile>)
      returns (r: Result<XlfDocument, DocError>)
      ensures r.Err? <==> files == []
      ensures r.Ok? ==>
        fresh(r.value) && r.value.fileName == fileName && r.value.rootNamespaces == rootNamespaces
        && r.value.files == files && DetermineDialect(files, rootNamespaces) == Ok(r.value.dialect)
    {
      var d := DetermineDialect(files, rootNamespaces);
      if d.Err? {
        return Err(d.error);
      }
      var doc := new XlfDocument.Load(fileName, rootNamespaces, files, d.value);
      return Ok(doc);
    }

    /**
     * `AddFile`: a new file with `original`, `datatype` and `source-language` goes right
     * after the last file; a document without files fails and is left as it is.
     */
    method AddFile(original: string, dataType: string, sourceLang: string) returns (r: Result<XlfFile, DocError>)
      modifies this`files
      ensures old(files) == [] ==> r == Err(NoFile) && files == old(files)
      ensures old(files) != [] ==>
        r.Ok? && fresh(r.value) && files == old(files) + [r.value]
        && r.value.Original() == Some(original) && r.value.DataType() == Some(dataType)
        && r.value.SourceLang() == Some(sourceLang) && r.value.units == []
    {
      if files == [] {
        return Err(NoFile);
      }
      var f := new XlfFile.Create(original, dataType, sourceLang);
      files := files + [f];
      return Ok(f);
    }

    /** `RemoveFile(original)`. */
    method RemoveFile(original: string)
      modifies this`files
      ensures files == FilesWithout(old(files), original)
    {
      files := FilesWithout(files, original);
    }

    /** The outer loop of `SaveAsResX`, over the files. */
    method BuildEntries(includeComments: bool) returns (r: Result<seq<ResXEntry>, DocError>)
      ensures r == UnitEntries(AllUnits(files), dialect, includeComments)
    {
      var entries: seq<ResXEntry> := [];
      var i := 0;
      while i < |files|
        invariant 0 <= i <= |files|
        invariant UnitEntries(AllUnits(files[..i]), dialect, includeComments) == Ok(entries)
      {
        assert files[..i + 1][..i] == files[..i];
        var step := AppendEntries(AllUnits(files[..i]), files[i].units, entries, dialect, includeComments);
        if step.Err? {
          var j :| 0 <= j < |files[i].units| && Id(files[i].units[j]).None?;
          MissingIdFails(files, i, j, dialect, includeComments);
          return Err(DocError.MissingId);
        }
        entries := step.value;
        i := i + 1;
      }
      assert files[..i] == files;
      r := Ok(entries);
    }

    /**
     * `SaveAsResX(fileName, options)`: builds the entries, sorts them by Id with
     * SortEntries (otherwise keeps their order), and writes them to `fileName`. A unit
     * without an id fails the export before anything is written. The result is the entry
     * list that was written.
     */
    method SaveAsResX(fs: ResXFile.FileStore, fileName: string, options: SaveOptions)
      returns (r: Result<seq<ResXEntry>, DocError>)
      modifies fs
      ensures var built := UnitEntries(AllUnits(files), dialect, options.includeComments);
        && (built.Err? ==> r == built && fs.files == old(fs.files) && fs.writeLog == old(fs.writeLog))
        && (built.Ok? ==>
              && r.Ok?
              && (options.sortEntries ==> SortedById(r.value) && multiset(r.value) == multiset(built.value))
              && (!options.sortEntries ==> r.value == built.value)
              && fs.files == old(fs.files)[fileName := ResXFile.Document(r.value)]
              && fs.writeLog == old(fs.writeLog)
                 + (if ResXFile.NeedsWrite(old(fs.files), fileName, ResXFile.Document(r.value)) then [fileName] else []))
    {
      var built := BuildEntries(options.includeComments);
      if built.Err? {
        return built;
      }
      var entries := built.value;
      if options.sortEntries {
        entries := Sort(entries);
      }
      ResXFile.Write(fs, fileName, entries, WriteOptionFor(options));
      return Ok(entries);
    }
  }

  /**
   * IncludeComments decides only the comments: with it, an entry's comment is its unit's
   * first note, or "" without notes; without it, every comment is "". Ids and values do not
   * depend on the flag, and neither does whether the export fails.
   */
  lemma EntryComments(units: seq<TransUnit>, d: Dialect, i: nat)
    requires UnitEntries(units, d, true).Ok? && i < |units|
    ensures UnitEntries(units, d, false).Ok?
    ensures |UnitEntries(units, d, true).value| == |units| == |UnitEntries(units, d, false).value|
    ensures |units[i].notes| > 0 ==> UnitEntries(units, d, true).value[i].comment == units[i].notes[0].value
    ensures |units[i].notes| == 0 ==> UnitEntries(units, d, true).value[i].comment == ""
    ensures UnitEntries(units, d, false).value[i].comment == ""
    ensures UnitEntries(units, d, false).value[i] == UnitEntries(units, d, true).value[i].(comment := "")
  {
    UnitEntriesOnePerUnit(units, d, true);
    UnitEntriesOnePerUnit(units, d, false);
  }

  /** A unit without a target exports a null Value, rendered as an empty `<value />`. */
  lemma EntryWithoutTarget(units: seq<TransUnit>, d: Dialect, ic: bool, i: nat)
    requires UnitEntries(units, d, ic).Ok? && i < |units| && units[i].target.None?
    ensures |UnitEntries(units, d, ic).value| == |units|
    ensures UnitEntries(units, d, ic).value[i].value == None
    ensures ResXFile.DataRecord(UnitEntries(units, d, ic).value[i]).value == ""
  {
    UnitEntriesOnePerUnit(units, d, ic);
  }

  /** A file added with `original` is among the files `RemoveFile(original)` drops. */
  lemma RemoveFileDropsAdded(files: seq<XlfFile>, f: XlfFile, original: string)
    requires f.Original() == Some(original)
    ensures f !in FilesWithout(files + [f], original)
  {
  }
}
