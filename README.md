# XLIFF document model and RESX export, in Dafny

This project models the core of the XLIFF compiler. The compiler reads an XLIFF 1.2 document and writes its translations out as a RESX resource file.

The model covers:

- **The document model.** An `XlfDocument` holds its `<file>` elements. Each `XlfFile` holds its `<trans-unit>` elements. Each trans-unit has an `id`, `resname` and other attributes, a `<source>`, at most one `<target>` (text and optional `state`), and `<note>` children.
- **How a unit's logical id is read and written.** This follows three identifier dialects:
  - Standard;
  - RCWinTrans11: the real id is in `resname`, and the raw id is `"none"`;
  - Multilingual App Toolkit: ids carry a `"Resx/"` prefix.
- **The in-place edits** of files, trans-units and notes.
- **The attribute and line-break helpers** of `XmlUtil`.
- **The RESX export path.** It builds one `ResXEntry` per trans-unit, optionally sorts the entries by id, and renders them through `ResXFile.Write`. The file is written only when its content would change.
- **The `UpdateResult` record.**

Layout:

- **Pure layers:** `xml_util.dfy`, `xlf_dialect.dfy`, `xlf_note.dfy` and `xlf_trans_unit.dfy`. They hold the values (`Note`, `TransUnit`) and the functions that say what each getter reads and what each setter leaves behind.
- **`xlf_file.dfy`:** the class `XlfFile`. It owns `units: seq<TransUnit>` and a `hasBody` flag, and its `AddTransUnit`, `RemoveTransUnit` and other methods edit them in place. The same file holds the view classes `TransUnitView` and `NoteView`. They correspond to the source's `XlfTransUnit` and `XlfNote` objects: a handle onto one node inside a file, whose setters change the owning file.
- **`xlf_document.dfy`:** the class `XlfDocument`, with its files, the dialect detection and `SaveAsResX`.
- **`resx_entry.dfy` and `resx_file.dfy`:** the entry, its ordering and sort, and the serializer. The serializer writes into a `FileStore` object: a map from path to content, plus the log of paths written.

Some behaviour of the code is easy to misread; the model keeps it as written:

- **RCWinTrans11 fallback.** `GetId` for RCWinTrans11 returns `Optional?.Resname ?? Id`. `Resname` reads through `GetAttributeIfExists`, which never returns null. So the `?? Id` fallback never fires, and a unit without `resname` has the id `""`.
- **Null update target.** `AddTransUnit` in UpdateExisting mode with a null target removes an existing `<target>` element, because `SetElementValue` with null removes the element. It does not leave the target unchanged.
- **Lookup failure.** `TryGetTransUnit` also answers false when the scan meets a unit without an `id` attribute before any match. The `NullReferenceException` is caught, so a later unit with the id is not found.
- **`DeNormalizeLineBreaks`.** It equals `NormalizeLineBreaks`. Its `"\r"` to `"\r\n"` replacement runs on a string that has no `'\r'` left.

## Model

| member | source | states |
|---|---|---|
| XmlUtil.GetAttributeIfExists | src/XliffCompiler/XliffParser/XmlUtil.cs:12-21 | fails exactly for a null element (ArgumentNull, checked first) or a name that is not a valid XName (InvalidName); otherwise the attribute's value, or "" when it is missing |
| XmlUtil.SetAttributeValue | src/XliffCompiler/XliffParser/XlfNote.cs:58-62 | a value sets the named attribute, null removes it; every other attribute is kept with its value |
| XmlUtil.SetThenGetAttribute | src/XliffCompiler/XliffParser/XlfTransUnit.cs:171-175 | reading an attribute after setting it gives the value set ("" after a removal); other attributes read as before |
| XmlUtil.ParseInt | src/XliffCompiler/XliffParser/XmlUtil.cs:31 | int.Parse fails only with a format or an overflow error; blank text is a format error |
| XmlUtil.NatToString | src/XliffCompiler/XliffParser/XlfNote.cs:88 | the decimal digits written for a number are non-empty and denote that number |
| XmlUtil.IntToString | src/XliffCompiler/XliffParser/XlfNote.cs:88 | an integer is written with a leading '-' exactly when it is negative |
| XmlUtil.IntRoundTrip | src/XliffCompiler/XliffParser/XmlUtil.cs:31 | every Int32 written as an attribute value parses back to itself |
| XmlUtil.GetIntAttributeIfExists | src/XliffCompiler/XliffParser/XmlUtil.cs:23-32 | a null element fails with ArgumentNull and an invalid name with InvalidName; a missing attribute reads 0, a present one is ParseInt of its text |
| XmlUtil.RemoveCarriageReturns | src/XliffCompiler/XliffParser/XmlUtil.cs:41 | the result holds no '\r' |
| XmlUtil.RemoveCarriageReturnsCounts | src/XliffCompiler/XliffParser/XmlUtil.cs:41 | the result's length is the input's minus the '\r' count, and it holds every other character as often as the input |
| XmlUtil.RemoveCarriageReturnsConcat | src/XliffCompiler/XliffParser/XmlUtil.cs:41 | deleting '\r' distributes over concatenation, so the other characters keep their order |
| XmlUtil.RemoveCarriageReturnsNoop | src/XliffCompiler/XliffParser/XmlUtil.cs:41 | a string without '\r' is unchanged |
| XmlUtil.NormalizeLineBreaks | src/XliffCompiler/XliffParser/XmlUtil.cs:34-42 | "" for null or white-space-only input; otherwise the input minus its '\r' characters, nothing else lost; never contains '\r' |
| XmlUtil.NormalizeLineBreaksIdempotent | src/XliffCompiler/XliffParser/XmlUtil.cs:34-42 | normalising twice equals normalising once |
| XmlUtil.ExpandCarriageReturns | src/XliffCompiler/XliffParser/XmlUtil.cs:51 | the expansion grows the string by one character per '\r' |
| XmlUtil.ExpandCarriageReturnsNoop | src/XliffCompiler/XliffParser/XmlUtil.cs:51 | a string without '\r' is not changed by the expansion |
| XmlUtil.DeNormalizeLineBreaks | src/XliffCompiler/XliffParser/XmlUtil.cs:44-52 | the result equals NormalizeLineBreaks of the input on every input: the normalised text holds no '\r' for the final Replace to expand |
| Sequences.FilterConcat | src/XliffCompiler/XliffParser/XlfFile.cs:198-202 | the filter behind both removals distributes over concatenation, so the kept elements keep their order |
| Sequences.FilterCount | src/XliffCompiler/XliffParser/XlfFile.cs:198-202 | a kept element keeps its number of copies, a dropped one has none left |
| XlfDialect.StartsWithIgnoreCaseConcat | src/XliffCompiler/XliffParser/XlfFile.cs:145-147 | a string built as prefix + id starts with the prefix ignoring case |
| XlfNote.Create | src/XliffCompiler/XliffParser/XlfTransUnit.cs:223 | a new note holds the comment and no attributes |
| XlfNote.Annotates | src/XliffCompiler/XliffParser/XlfNote.cs:58-62 | the getter answers GetAttributeIfExists of "annotates" on the note, which succeeds; "" when missing |
| XlfNote.From | src/XliffCompiler/XliffParser/XlfNote.cs:67-71 | the getter answers GetAttributeIfExists of "from" on the note, which succeeds; "" when missing |
| XlfNote.Lang | src/XliffCompiler/XliffParser/XlfNote.cs:76-80 | (corrected Lang) the xml:lang attribute's value when present, "" when missing |
| XlfNote.LangAsWritten | src/XliffCompiler/XliffParser/XlfNote.cs:78-79 | the getter as written fails with InvalidName on every note, because "xml:lang" is not a valid XName |
| XlfNote.WithLangAsWritten | src/XliffCompiler/XliffParser/XlfNote.cs:79 | the setter as written fails with InvalidName for every note and every value, because "xml:lang" is not a valid XName |
| XlfNote.WithValue | src/XliffCompiler/XliffParser/XlfNote.cs:31-35 | the Value setter replaces the text and keeps every attribute |
| XlfNote.WithAttribute | src/XliffCompiler/XliffParser/XlfNote.cs:58-80 | an optional-attribute setter changes that attribute only (null removes it) and keeps the text |
| XlfNote.Priority | src/XliffCompiler/XliffParser/XlfNote.cs:85-89 | priority reads 0 when missing, and ParseInt of the attribute text when present; a read fails only with a format or overflow error |
| XlfNote.WithPriority | src/XliffCompiler/XliffParser/XlfNote.cs:88 | the priority setter keeps the text and every other attribute |
| XlfNote.MissingAttributesReadDefaults | src/XliffCompiler/XliffParser/XlfNote.cs:58-89 | (corrected Lang) on a note without attributes, annotates, from and xml:lang read "" and priority reads 0 |
| XlfNote.ValueSetThenGet | src/XliffCompiler/XliffParser/XlfNote.cs:31-35 | the text reads back as set, and the four optional attributes read as before |
| XlfNote.AnnotatesSetThenGet | src/XliffCompiler/XliffParser/XlfNote.cs:58-62 | annotates reads back as set; text, from, xml:lang and priority unchanged |
| XlfNote.FromSetThenGet | src/XliffCompiler/XliffParser/XlfNote.cs:67-71 | from reads back as set; text, annotates, xml:lang and priority unchanged |
| XlfNote.LangSetThenGet | src/XliffCompiler/XliffParser/XlfNote.cs:76-80 | (corrected Lang) xml:lang reads back as set; text, annotates, from and priority unchanged |
| XlfNote.PrioritySetThenGet | src/XliffCompiler/XliffParser/XlfNote.cs:85-89 | priority reads back as the integer set; text and the other attributes unchanged |
| XlfNote.LangAsWrittenFails | src/XliffCompiler/XliffParser/XlfNote.cs:76-80 | the Lang accessor as written fails even when the note carries xml:lang, which the corrected reading returns |
| XlfTransUnit.GetId | src/XliffCompiler/XliffParser/XlfTransUnit.cs:94-116 | fails exactly when the raw id is missing, in every dialect; outside RCWinTrans11 the logical id is a suffix of the raw id |
| XlfTransUnit.GetIdStandard | src/XliffCompiler/XliffParser/XlfTransUnit.cs:111-115 | Standard dialect: the logical id is the raw id |
| XlfTransUnit.GetIdRCWinTrans11 | src/XliffCompiler/XliffParser/XlfTransUnit.cs:99-100 | RCWinTrans11: the logical id is resname, and "" (not the raw id) when resname is missing |
| XlfTransUnit.GetIdToolkit | src/XliffCompiler/XliffParser/XlfTransUnit.cs:103-107 | toolkit dialect: a raw id starting with "Resx/" in any case loses its first five characters; any other raw id is returned as is |
| XlfTransUnit.TargetText | src/XliffCompiler/XliffParser/XlfTransUnit.cs:63-65 | null exactly when there is no target; otherwise the target's text |
| XlfTransUnit.TargetState | src/XliffCompiler/XliffParser/XlfTransUnit.cs:81-83 | a state is answered only when there is a target, and it is that target's state; a target with a state always answers it |
| XlfTransUnit.OptionalTargetState | src/XliffCompiler/XliffParser/XlfTransUnit.cs:191-201 | null exactly when there is no target; otherwise the target's state, "" when unset |
| XlfTransUnit.WithSource | src/XliffCompiler/XliffParser/XlfTransUnit.cs:46-50 | the Source setter replaces the source text and nothing else |
| XlfTransUnit.WithTarget | src/XliffCompiler/XliffParser/XlfTransUnit.cs:63-79 | without a target, one target is created holding the value (empty for null); with one, only its text is replaced (state kept), and null removes it |
| XlfTransUnit.WithTargetState | src/XliffCompiler/XliffParser/XlfTransUnit.cs:81-92 | without a target nothing changes; with one, only its state is replaced |
| XlfTransUnit.AddNote | src/XliffCompiler/XliffParser/XlfTransUnit.cs:221-230 | exactly one note is appended after the existing ones, with `from` only when it is not blank |
| XlfTransUnit.SetCommentFromResx | src/XliffCompiler/XliffParser/XlfTransUnit.cs:237-247 | with notes, the first note's text is overwritten and the others kept; without notes, exactly one plain note is added |
| XlfTransUnit.RemoveNotes | src/XliffCompiler/XliffParser/XlfTransUnit.cs:249-256 | for a valid name: the notes kept are old notes without the attribute value, and every old note without it is kept; attributes, source and target unchanged |
| XlfTransUnit.Create | src/XliffCompiler/XliffParser/XlfTransUnit.cs:26-36 | id and source are always set; a target exists exactly when the target argument is neither null nor blank |
| XlfTransUnit.TargetSetThenGet | src/XliffCompiler/XliffParser/XlfTransUnit.cs:63-79 | after setting a target text it reads back, and the state is what it was |
| XlfTransUnit.TargetStateSetThenGet | src/XliffCompiler/XliffParser/XlfTransUnit.cs:191-210 | setting a state never creates a target; with a target both state getters read the value set |
| XlfTransUnit.RemoveNotesKeepsUnattributed | src/XliffCompiler/XliffParser/XlfTransUnit.cs:249-256 | a note lacking the attribute survives RemoveNotes |
| XlfFile.FindUnit | src/XliffCompiler/XliffParser/XlfFile.cs:154-157 | the first unit in document order whose logical id matches; NotFound when every unit has a different id; MissingId when a unit without id comes first |
| XlfFile.XlfFile.GetTransUnit | src/XliffCompiler/XliffParser/XlfFile.cs:154-157 | success names a unit whose logical id is the one asked for, with every earlier unit having another id; NotFound means every unit has an id and none matches; MissingId means a unit without an id comes before any match |
| XlfFile.XlfFile.TryGetTransUnit | src/XliffCompiler/XliffParser/XlfFile.cs:159-176 | true with the first matching unit, or false with no unit, which means no match precedes every unit without an id |
| XlfFile.NewUnit | src/XliffCompiler/XliffParser/XlfFile.cs:137-151 | raw id "none" with resname = id for RCWinTrans11; "Resx/" + id for the toolkit unless already prefixed ignoring case; the id as given for Standard; a target exists exactly for a target text that is not blank, and then holds that text with no state |
| XlfFile.UpdatedUnit | src/XliffCompiler/XliffParser/XlfFile.cs:97-107 | the source is replaced; a target is never created; an existing target gets the new text, or is removed by a null target |
| XlfFile.UnitsWithout | src/XliffCompiler/XliffParser/XlfFile.cs:196-203 | the units kept are those without the attribute value, and every such unit is kept |
| XlfFile.ReplaceNote | src/XliffCompiler/XliffParser/XlfNote.cs:31-35 | writing note k of unit i through its node puts the new note at position k; every other unit, the unit's attributes, source and target, and its other notes are unchanged |
| XlfFile.XlfFile.Load | src/XliffCompiler/XliffParser/XlfFile.cs:22-31 | the view over a loaded file element holds its attributes and units |
| XlfFile.XlfFile.Create | src/XliffCompiler/XliffParser/XlfFile.cs:33-39 | a new file has original, datatype and source-language set and no units |
| XlfFile.XlfFile.AddTransUnit | src/XliffCompiler/XliffParser/XlfFile.cs:85-152 | found: FailIfExists fails and changes nothing, SkipExisting returns the unit unchanged, UpdateExisting applies UpdatedUnit; not found: exactly the new unit is appended last, creating a body if none existed |
| XlfFile.XlfFile.AddOrUpdateTransUnit | src/XliffCompiler/XliffParser/XlfFile.cs:80-83 | never fails; updates the found unit or appends the new one |
| XlfFile.XlfFile.RemoveTransUnit | src/XliffCompiler/XliffParser/XlfFile.cs:178-194 | removes by resname = id (RCWinTrans11), id = "Resx/" + id (toolkit) or id = id (Standard) |
| XlfFile.XlfFile.RemoveTransUnitByAttribute | src/XliffCompiler/XliffParser/XlfFile.cs:196-203 | for a valid name (or no units) the file keeps exactly the units lacking the attribute value; an invalid name with units present fails with InvalidName and removes nothing |
| XlfFile.XlfFile.Export | src/XliffCompiler/XliffParser/XlfFile.cs:205-216 | the handler receives the path, the file's target language, the dialect and exactly the units both filters admit (an empty filter admits all) |
| XlfFile.TransUnitView.SetSource | src/XliffCompiler/XliffParser/XlfTransUnit.cs:46-50 | the viewed unit in the owning file becomes WithSource of it; other units unchanged |
| XlfFile.TransUnitView.SetTarget | src/XliffCompiler/XliffParser/XlfTransUnit.cs:63-79 | the viewed unit becomes WithTarget of it; other units unchanged |
| XlfFile.TransUnitView.SetTargetState | src/XliffCompiler/XliffParser/XlfTransUnit.cs:81-92 | the viewed unit becomes WithTargetState of it; other units unchanged |
| XlfFile.TransUnitView.AddNote | src/XliffCompiler/XliffParser/XlfTransUnit.cs:221-230 | the viewed unit gets the note appended; other units unchanged |
| XlfFile.TransUnitView.SetCommentFromResx | src/XliffCompiler/XliffParser/XlfTransUnit.cs:237-247 | the viewed unit becomes SetCommentFromResx of it; other units unchanged |
| XlfFile.TransUnitView.RemoveNotes | src/XliffCompiler/XliffParser/XlfTransUnit.cs:249-256 | for a valid name (or no notes) the viewed unit loses the matching notes; an invalid name with notes present fails with InvalidName and changes nothing; other units unchanged |
| XlfFile.TransUnitView.Remove | src/XliffCompiler/XliffParser/XlfTransUnit.cs:52-55 | the viewed unit is cut out of the file, the others keep their order |
| XlfFile.NoteView.GetNode | src/XliffCompiler/XliffParser/XlfNote.cs:37-40 | the node handed out is the very note the view reads and its setters write, in the owning unit of the file |
| XlfFile.NoteView.SetValue | src/XliffCompiler/XliffParser/XlfNote.cs:31-40 | the edit lands in the owning file's note node, and the text read back through the view is the value set |
| XlfFile.NoteView.SetAttribute | src/XliffCompiler/XliffParser/XlfNote.cs:58-80 | (corrected Lang) annotates, from or xml:lang is written into the owning file's note and reads back; the text is kept |
| XlfFile.NoteView.SetPriority | src/XliffCompiler/XliffParser/XlfNote.cs:85-89 | the priority is written into the owning file's note and reads back as the integer set |
| XlfFile.NewUnitIdRoundTrip | src/XliffCompiler/XliffParser/XlfFile.cs:137-151 | GetId of the unit created for an id returns that id exactly when the id is not already "Resx/"-prefixed in the toolkit dialect; a prefixed one loses the prefix |
| XlfFile.NewUnitRemovable | src/XliffCompiler/XliffParser/XlfFile.cs:178-194 | RemoveTransUnit with the same id and dialect matches the created unit exactly under the same condition |
| XlfFile.ToolkitRemoveIsCaseSensitive | src/XliffCompiler/XliffParser/XlfFile.cs:186-188 | a toolkit unit "resx/Name" is found as "Name" but not removed by "Name" |
| XlfFile.FindAfterAppend | src/XliffCompiler/XliffParser/XlfFile.cs:111-116 | a unit appended where the id was not found is what the lookup then returns |
| XlfFile.AddThenGet | src/XliffCompiler/XliffParser/XlfFile.cs:111-157 | after adding a new, unprefixed id, GetTransUnit finds the new unit at the end |
| XlfFile.ExportUnfiltered | src/XliffCompiler/XliffParser/XlfFile.cs:207-213 | with both filters empty every unit is exported, in document order |
| ResXEntry.Default | src/XliffCompiler/resx/ResXEntry.cs:12-16 | Id, Value and Comment default to "" |
| ResXEntry.CompareOrdinal | src/XliffCompiler/resx/ResXEntry.cs:22 | the comparison is -1, 0 or 1, and 0 exactly for equal strings |
| ResXEntry.CompareAntisymmetric | src/XliffCompiler/resx/ResXEntry.cs:22 | swapping the arguments negates the comparison |
| ResXEntry.CompareTransitive | src/XliffCompiler/resx/ResXEntry.cs:22 | the order is transitive |
| ResXEntry.CompareTo | src/XliffCompiler/resx/ResXEntry.cs:18-26 | fails exactly for null; 0 exactly when the other's Id (or the object's string form) equals this Id |
| ResXEntry.CompareToOnlyIds | src/XliffCompiler/resx/ResXEntry.cs:20-23 | between entries the result depends only on the two Ids |
| ResXEntry.CompareToReflexiveAntisymmetric | src/XliffCompiler/resx/ResXEntry.cs:22 | an entry compares 0 to itself; the two directions have opposite signs |
| ResXEntry.SortedPairwise | src/XliffCompiler/XliffParser/XlfDocument.cs:115 | in a sorted list every earlier entry is ordered before every later one |
| ResXEntry.Insert | src/XliffCompiler/XliffParser/XlfDocument.cs:115 | inserting into a sorted list keeps it sorted and adds exactly that entry |
| ResXEntry.Sort | src/XliffCompiler/XliffParser/XlfDocument.cs:113-116 | the result is sorted by Id and is a permutation of the input |
| ResXFile.DataRecords | src/XliffCompiler/resx/ResXFile.cs:67-76 | one data record per entry, in the given order |
| ResXFile.Render | src/XliffCompiler/resx/ResXFile.cs:33-79 | the streamed records are exactly the document of the entries |
| ResXFile.Write | src/XliffCompiler/resx/ResXFile.cs:23-99 | the path ends up holding the document; a write is logged exactly when the path was missing or held different content; no other path changes; options play no part |
| ResXFile.WriteTwice | src/XliffCompiler/resx/ResXFile.cs:94-98 | two writes in a row log at most the first one |
| ResXFile.DocumentShape | src/XliffCompiler/resx/ResXFile.cs:33-79 | the fixed comment, the resheaders resmimetype, version, reader, writer in that order, then data(name = Id, xml:space = preserve, value = Value) per entry, then the end of root |
| ResXFile.NoEntryComments | src/XliffCompiler/resx/ResXFile.cs:35-76 | the generated-file notice is the only comment in the output |
| ResXFile.DocumentIgnoresComments | src/XliffCompiler/resx/ResXFile.cs:67-76 | entries that agree on Ids and rendered Values give the same document, whatever their comments |
| ResXFile.NullAndEmptyValueRenderAlike | src/XliffCompiler/resx/ResXFile.cs:73 | a null value and an empty one render alike |
| ResXFile.WriteIdempotent | src/XliffCompiler/resx/ResXFile.cs:94-98 | after a path holds some content, writing that content again is not needed |
| ResXFile.DocumentDeterminesIds | src/XliffCompiler/resx/ResXFile.cs:94-98 | equal documents have the same Ids and Values, so changing them always causes a write |
| XlfDocument.DetermineDialect | src/XliffCompiler/XliffParser/XlfDocument.cs:121-134 | fails exactly without files; toolkit exactly when the first file's tool-id is "MultilingualAppToolkit"; otherwise RCWinTrans11 exactly when the root binds rwt to the RCWinTrans namespace; otherwise Standard |
| XlfDocument.DetermineDialectDependsOnFirstFile | src/XliffCompiler/XliffParser/XlfDocument.cs:121-134 | the dialect depends only on the first file's attributes and the root's namespaces |
| XlfDocument.FilesWithout | src/XliffCompiler/XliffParser/XlfDocument.cs:75-83 | the files kept are those whose original is missing or different, and every such file is kept |
| XlfDocument.AllUnitsPrefix | src/XliffCompiler/XliffParser/XlfDocument.cs:98-101 | the units of the first k files come first among all units |
| XlfDocument.UnitEntries | src/XliffCompiler/XliffParser/XlfDocument.cs:97-111 | a failure is always the missing-id error; a success has exactly one entry per unit |
| XlfDocument.UnitEntriesSnoc | src/XliffCompiler/XliffParser/XlfDocument.cs:102-109 | one more unit with an id adds exactly its entry at the end |
| XlfDocument.MissingIdFails | src/XliffCompiler/XliffParser/XlfDocument.cs:102 | a unit without id in any file fails the whole export |
| XlfDocument.UnitEntriesFails | src/XliffCompiler/XliffParser/XlfDocument.cs:97-111 | building the entries fails exactly when some unit of some file has no id attribute, and then with the missing-id error |
| XlfDocument.UnitEntriesShape | src/XliffCompiler/XliffParser/XlfDocument.cs:97-111 | a successful build has one entry per unit in file then unit order, each with Id = GetId(dialect), Value = Target and the comment of CommentFor |
| XlfDocument.UnitEntriesOnePerUnit | src/XliffCompiler/XliffParser/XlfDocument.cs:97-111 | one entry per unit in file then unit order, Id = GetId(dialect), Value = Target, comment as CommentFor; fails exactly when some unit has no id |
| XlfDocument.WriteOptionFor | src/XliffCompiler/XliffParser/XlfDocument.cs:118 | SkipComments exactly when IncludeComments is not set |
| XlfDocument.AppendEntries | src/XliffCompiler/XliffParser/XlfDocument.cs:100-110 | the inner loop extends the entries by one per unit, or stops at a unit without id |
| XlfDocument.XlfDocument.Open | src/XliffCompiler/XliffParser/XlfDocument.cs:28-33 | loading fails exactly without files; otherwise the dialect is the detected one |
| XlfDocument.XlfDocument.AddFile | src/XliffCompiler/XliffParser/XlfDocument.cs:66-73 | fails without files; otherwise one new file, with original, datatype and source-language set, comes after the last one |
| XlfDocument.XlfDocument.RemoveFile | src/XliffCompiler/XliffParser/XlfDocument.cs:75-83 | the document keeps exactly the files whose original differs or is missing |
| XlfDocument.XlfDocument.BuildEntries | src/XliffCompiler/XliffParser/XlfDocument.cs:97-111 | the nested loops compute exactly UnitEntries of all units |
| XlfDocument.XlfDocument.SaveAsResX | src/XliffCompiler/XliffParser/XlfDocument.cs:95-119 | a unit without id fails before any write; otherwise the entries written are the built ones, sorted by Id (a permutation) with SortEntries and in order without, and the file store changes as Write says |
| XlfDocument.EntryComments | src/XliffCompiler/XliffParser/XlfDocument.cs:104-107 | with IncludeComments the comment is the first note's text or "", without it ""; Ids and Values do not depend on the flag |
| XlfDocument.EntryWithoutTarget | src/XliffCompiler/XliffParser/XlfDocument.cs:102 | a unit without target exports a null Value, written as an empty value |
| XlfDocument.RemoveFileDropsAdded | src/XliffCompiler/XliffParser/XlfDocument.cs:66-83 | a file added with an original is dropped by RemoveFile of that original |
| UpdateResult.Create | src/XliffCompiler/XliffParser/UpdateResult.cs:11-16 | the constructor stores the three sequences unchanged |
| UpdateResult.Any | src/XliffCompiler/XliffParser/UpdateResult.cs:24-27 | Any() is false exactly when all three sequences are empty |
| UpdateResult.AnyWitness | src/XliffCompiler/XliffParser/UpdateResult.cs:26 | any item in any of the three lists makes Any() true |

## Left out

- XML parsing and saving (`XDocument.Load`, `XlfDocument.Save`) are library I/O. So are the `XmlWriter`/`StreamWriter` text and its UTF-8 encoding. The tree is modelled as sequences of units and notes. The RESX output is a sequence of records, and file content is such a sequence.
- The MSBuild task `XliffCompilerTask` is not part of this model: directory scanning, paths and logging.
- The exporter behind `IXlfExporter` is foreign code. The model only states what it receives: the path, the filtered units, the target language and the dialect.
- `GenerateDesignerFile` in ResXFile.cs is commented out and depends on CodeDom.
- No synchronisation between a source list and an XLIFF file exists in this code, and none is modelled. `UpdateResult` is modelled as a plain record.
- Nested elements are flattened. A file's trans-units and a unit's notes are flat sequences in document order, so the difference between `Descendants` and `Elements` for nested groups is not modelled. Neither is the order of a unit's children apart from its notes.
- `XlfHeader` and the header of a file are not modelled.
- The file's `Optionals` setters (build-num, product-name, product-version, target-language, tool-id) are not modelled. File attributes are fixed once the file exists, and only their readers are modelled.
- Several trans-unit `Optionals` are left out as plain attribute reads and writes covered by `SetAttributeValue`: `Approved`, `DataType`, `Translate`, `Restype` setter and `Resname` setter. `Resname` is written in `NewUnit`.
- The readers `Original`, `DataType` and `SourceLang` of `XlfFile` answer `None` for a missing attribute. The source reads `Attribute(...).Value`, which throws `NullReferenceException` in that case. `RemoveFile` itself checks for a missing `original` and keeps such files, which the model does too.
- `XlfDocument.Version` and the `Dialect` setter are plain fields without behaviour.
- `SaveAsResX(fileName)` is `SaveAsResX` with no flags set, `SaveOptions(false, false)`.
- `AddNote(comment)` is `AddNote(comment, "")`. The model uses it through `SetCommentFromResx`.
- Null string arguments are modelled only where the source branches on null: target text, `from`, attribute values, and the input of the line-break helpers. A null source is not modelled, though `SetElementValue` would remove the `<source>` element. Neither is a null id, or a null entry inside an `Export` filter list, which would admit units without a target.
- `XlfFile.TransUnitView` and `XlfFile.NoteView`: a view whose index is stale after a removal is not modelled. Each setter requires the view to be valid.
- The culture-aware `String.CompareTo` used by `ResXEntry` is approximated by ordinal code-point order. `StartsWith(..., InvariantCultureIgnoreCase)` is approximated by ASCII case folding.
- ResXEntry.Sort: the contract is sorted plus permutation only. `List.Sort` is unstable, so the order among equal Ids is not claimed.
- `ResXEntry` properties are settable but are modelled as a value. `SaveAsResX` sets the comment on an entry it has just created and that nothing else references, so value updates are sufficient.
- XmlUtil.SetAttributeValue: the name is assumed to be a valid XName. Every caller passes a fixed valid name, except the as-written `Lang` setter, which is `XlfNote.WithLangAsWritten` and is under Findings.
- XmlUtil.ValidName: only these rules of `XName` conversion are modelled: the name is non-empty, and it has no ':' unless it is an expanded name starting with '{'. The other XML name character rules are not. The `ArgumentException` for an empty name and the `XmlException` for a bad character are both `InvalidName`.
- XmlUtil.ParseInt follows `int.Parse` with invariant-culture signs, the white space of `NumberStyles.Integer` and decimal digits. It does not model culture-specific sign symbols or trailing NUL characters.
- TryGetTransUnit, FindUnit: the source's `First` runs lazily over a LINQ query, and other exceptions are not possible in the model, so only `InvalidOperationException` and `NullReferenceException` are given as failure results.

## Findings

| source | as written | input that shows it | evidently intended | confidence | as-written member | corrected member |
|---|---|---|---|---|---|---|
| src/XliffCompiler/XliffParser/XlfNote.cs:78-79 | `Lang` passes the string "xml:lang" as an `XName`. A local name may not contain ':', so `XName.Get` throws `XmlException` on every read (`XlfNote.LangAsWritten`) and every write (`XlfNote.WithLangAsWritten`). | any note; for example, reading `Lang` of a note carrying `xml:lang="de"` | read and write the attribute `lang` in the XML namespace (`XNamespace.Xml + "lang"`), reading "" when it is missing | high; not executed | XlfNote.LangAsWrittenFails | XlfNote.LangSetThenGet |
