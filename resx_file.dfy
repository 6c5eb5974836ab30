/**
 * The RESX serializer `ResXFile.Write`.
 *
 * The XML writer's output is modelled as the sequence of records it emits, and the file
 * system as a store from path to content, where content is such a record sequence. The
 * serializer renders a fixed prologue, one data record per entry, and closes the root;
 * the store is written only when the path is missing or holds different content.
 */
module ResXFile {
  import opened Wrappers
  import opened ResXEntry

  /** `ResXFile.Option`: the only flag is SkipComments. */
  datatype WriteOption = WriteOption(skipComments: bool)

  /** What the XML writer emits, in order. */
  datatype Record =
    | Declaration                                   // WriteStartDocument
    | Comment(text: string)
    | StartRoot                                     // <root>
    | ResHeader(name: string, value: string)        // <resheader name=...><value>...</value></resheader>
    | Data(name: string, space: string, value: string) // <data name=... xml:space=...><value>...</value></data>
    | EndRoot                                       // </root> and the end of the document

  const GeneratedComment := "Auto-generated document. Do not modify. Modify the xlf files instead."
  const MimeType := "text/microsoft-resx"
  const Version := "2.0"
  const ReaderType := "System.Resources.ResXResourceReader, System.Windows.Forms, Version=4.0.0.0, Culture=neutral, PublicKeyToken=b77a5c561934e089"
  const WriterType := "System.Resources.ResXResourceWriter, System.Windows.Forms, Version=4.0.0.0, Culture=neutral, PublicKeyToken=b77a5c561934e089"
  const SpacePreserve := "preserve"

  /** Everything before the first data record. */
  function Prologue(): seq<Record> {
    [Declaration, Comment(GeneratedComment), StartRoot,
     ResHeader("resmimetype", MimeType), ResHeader("version", Version),
     ResHeader("reader", ReaderType), ResHeader("writer", WriterType)]
  }

  /** The data record of one entry: `<value />` both for a null and for an empty value. */
  function DataRecord(e: ResXEntry): Record {
    Data(e.id, SpacePreserve, e.value.GetOr(""))
  }

  function DataRecords(entries: seq<ResXEntry>): (r: seq<Record>)
    ensures |r| == |entries|
    ensures forall i :: 0 <= i < |entries| ==> r[i] == DataRecord(entries[i])
  {
    if entries == [] then [] else DataRecords(entries[..|entries| - 1]) + [DataRecord(entries[|entries| - 1])]
  }

  /** The whole serialized document for `entries`. */
  function Document(entries: seq<ResXEntry>): seq<Record> {
    Prologue() + DataRecords(entries) + [EndRoot]
  }

  /**
   * The in-memory rendering (the `XmlWriter` calls of `Write`): streams the prologue, then
   * one data record per entry in order, then closes the root.
   */
  method Render(entries: seq<ResXEntry>) returns (out: seq<Record>)
    ensures out == Document(entries)
  {
    out := Prologue();
    for i := 0 to |entries|
      invariant out == Prologue() + DataRecords(entries[..i])
    {
      var e := entries[i];
      out := out + [Data(e.id, SpacePreserve, e.value.GetOr(""))];
      assert entries[..i + 1][..i] == entries[..i];
    }
    assert entries[..|entries|] == entries;
    out := out + [EndRoot];
  }

  /** The file system: path to content, and the paths written so far, in order. */
  class FileStore {
    var files: map<string, seq<Record>>
    var writeLog: seq<string>

    constructor (files: map<string, seq<Record>>)
      ensures this.files == files && writeLog == []
    {
      this.files := files;
      writeLog := [];
    }
  }

  /** "Only write if actually updated": the path is missing or its content differs. */
  predicate NeedsWrite(files: map<string, seq<Record>>, path: string, content: seq<Record>) {
    path !in files || files[path] != content
  }

  /**
   * `Write`: afterwards the path holds the rendering of `entries`; a write happens exactly
   * when the path was missing or held other content; no other path changes. The options
   * are never consulted and entry comments are never rendered.
   */
  method Write(fs: FileStore, filename: string, entries: seq<ResXEntry>, options: WriteOption)
    modifies fs
    ensures fs.files == old(fs.files)[filename := Document(entries)]
    ensures fs.writeLog == old(fs.writeLog) + (if NeedsWrite(old(fs.files), filename, Document(entries)) then [filename] else [])
  {
    var str := Render(entries);
    if filename !in fs.files || fs.files[filename] != str {
      fs.files := fs.files[filename := str];
      fs.writeLog := fs.writeLog + [filename];
    }
  }

  /** Writing the same entries twice in a row: the second call performs no write. */
  method WriteTwice(fs: FileStore, filename: string, entries: seq<ResXEntry>, options: WriteOption)
    modifies fs
    ensures fs.files == old(fs.files)[filename := Document(entries)]
    ensures fs.writeLog == old(fs.writeLog) + (if NeedsWrite(old(fs.files), filename, Document(entries)) then [filename] else [])
  {
    Write(fs, filename, entries, options);
    Write(fs, filename, entries, options);
  }

  // ---------------------------------------------------------------- properties

  /**
   * The document is the comment and the four resheaders (resmimetype, version, reader,
   * writer) in that order, then one data record per entry in order with name = Id,
   * xml:space = preserve and value = Value, then the end of the root.
   */
  lemma DocumentShape(entries: seq<ResXEntry>)
    ensures var d := Document(entries);
      && |d| == 8 + |entries|
      && d[1] == Comment(GeneratedComment)
      && d[3] == ResHeader("resmimetype", MimeType) && d[4] == ResHeader("version", Version)
      && d[5] == ResHeader("reader", ReaderType) && d[6] == ResHeader("writer", WriterType)
      && d[|d| - 1] == EndRoot
      && forall i :: 0 <= i < |entries| ==> d[7 + i] == Data(entries[i].id, SpacePreserve, entries[i].value.GetOr(""))
  {
  }

  /** The only comment in the output is the generated-file notice: entry comments never appear. */
  lemma NoEntryComments(entries: seq<ResXEntry>)
    ensures forall i :: 0 <= i < |Document(entries)| && Document(entries)[i].Comment? ==> i == 1
  {
  }

  /** The output depends only on each entry's Id and rendered Value, never on its comment. */
  lemma DocumentIgnoresComments(a: seq<ResXEntry>, b: seq<ResXEntry>)
    requires |a| == |b|
    requires forall i :: 0 <= i < |a| ==> a[i].id == b[i].id && a[i].value.GetOr("") == b[i].value.GetOr("")
    ensures Document(a) == Document(b)
  {
    assert DataRecords(a) == DataRecords(b);
  }

  /** A null value and an empty value render the same. */
  lemma NullAndEmptyValueRenderAlike(id: string, comment: string)
    ensures DataRecord(ResXEntry(id, None, comment)) == DataRecord(ResXEntry(id, Some(""), comment))
  {
  }

  /** After a write of some content, writing that content again is not needed. */
  lemma WriteIdempotent(files: map<string, seq<Record>>, path: string, content: seq<Record>)
    ensures !NeedsWrite(files[path := content], path, content)
  {
  }

  /** Distinct entry sequences with distinct Ids render differently, so changed Ids always trigger a write. */
  lemma DocumentDeterminesIds(a: seq<ResXEntry>, b: seq<ResXEntry>)
    requires Document(a) == Document(b)
    ensures |a| == |b|
    ensures forall i :: 0 <= i < |a| ==> a[i].id == b[i].id && a[i].value.GetOr("") == b[i].value.GetOr("")
  {
    assert |Document(a)| == 8 + |a| && |Document(b)| == 8 + |b|;
    forall i | 0 <= i < |a|
      ensures a[i].id == b[i].id && a[i].value.GetOr("") == b[i].value.GetOr("")
    {
      assert Document(a)[7 + i] == DataRecord(a[i]);
      assert Document(b)[7 + i] == DataRecord(b[i]);
    }
  }
}
