/**
 * The `<file>` element of an XLIFF document and the views onto the nodes it owns.
 *
 * `XlfFile` owns its trans-units as a sequence in document order (every `<trans-unit>`
 * below the file, whatever body or group holds it) and records whether the file has a
 * `<body>`. `TransUnitView` and `NoteView` are the model of the source's `XlfTransUnit`
 * and `XlfNote` objects: handles onto one unit (one note) inside a file, whose setters
 * edit the owning file in place.
 */
module XlfFile {
  import opened Wrappers
  import opened XmlUtil
  import opened XlfDialect
  import opened Sequences
  import opened XlfTransUnit
  import XlfNote

  const AttributeOriginal := "original"
  const AttributeDataType := "datatype"
  const AttributeSourceLanguage := "source-language"
  const AttributeTargetLanguage := "target-language"
  const AttributeToolId := "tool-id"
  const IdNone := "none"

  datatype AddMode = SkipExisting | UpdateExisting | FailIfExists

  datatype FileError =
    | NotFound        // InvalidOperationException from `First`: no unit has the id
    | MissingId       // NullReferenceException: a unit scanned has no `id` attribute
    | AlreadyExists   // InvalidOperationException from AddTransUnit with FailIfExists

  /** What `Export` hands to the external exporter. */
  datatype ExportCall = ExportCall(path: string, units: seq<TransUnit>, targetLanguage: string, dialect: Dialect)

  /** Unit `u` has a logical id under `d`, and it is not `id`. */
  predicate Misses(u: TransUnit, id: string, d: Dialect) {
    GetId(u, d).Some? && GetId(u, d).value != id
  }

  /**
   * `TransUnits.First(u => u.GetId(dialect) == id)`: scans in document order; the first
   * unit whose logical id is `id` is the answer, and a unit without a raw id met before
   * that aborts the scan.
   */
  function FindUnit(units: seq<TransUnit>, id: string, d: Dialect): (r: Result<nat, FileError>)
    ensures r.Ok? ==>
      r.value < |units| && GetId(units[r.value], d) == Some(id)
      && forall j :: 0 <= j < r.value ==> Misses(units[j], id, d)
    ensures r == Err(NotFound) ==> forall j :: 0 <= j < |units| ==> Misses(units[j], id, d)
    ensures r == Err(MissingId) ==>
      exists k :: 0 <= k < |units| && GetId(units[k], d).None? && forall j :: 0 <= j < k ==> Misses(units[j], id, d)
    ensures r.Err? ==> r.error == NotFound || r.error == MissingId
    decreases |units|
  {
    if units == [] then Err(NotFound)
    else
      match GetId(units[0], d)
      case None => Err(MissingId)
      case Some(x) =>
        if x == id then Ok(0)
        else
          match FindUnit(units[1..], id, d)
          case Ok(k) => Ok(k + 1)
          case Err(e) =>
            assert e == MissingId ==>
              (exists k :: 0 <= k < |units| && GetId(units[k], d).None? && forall j :: 0 <= j < k ==> Misses(units[j], id, d)) by {
              if e == MissingId {
                var k :| 0 <= k < |units[1..]| && GetId(units[1..][k], d).None?
                  && forall j :: 0 <= j < k ==> Misses(units[1..][j], id, d);
                assert GetId(units[k + 1], d).None?;
                assert forall j :: 0 <= j < k + 1 ==> Misses(units[j], id, d) by {
                  forall j | 0 <= j < k + 1 ensures Misses(units[j], id, d) {
                    if j > 0 { assert units[j] == units[1..][j - 1]; }
                  }
                }
              }
            }
            Err(e)
  }

  /**
   * The unit `AddTransUnit` creates for a new id: RCWinTrans11 writes raw id "none" and the
   * id as `resname`; the toolkit dialect prepends "Resx/" unless the id already begins with
   * it (ignoring case); Standard stores the id as given.
   */
  function NewUnit(id: string, source: string, target: Option<string>, d: Dialect): (u: TransUnit)
    ensures u.source == source && u.notes == []
    ensures u.target.Some? <==> !IsNullOrWhiteSpace(target)
    ensures u.target.Some? ==> u.target.value == Target(target.value, None)
    ensures d == RCWinTrans11 ==> Id(u) == Some(IdNone) && Resname(u) == id
    ensures d == MultilingualAppToolkit ==>
      Id(u) == Some(if StartsWithIgnoreCase(id, ResxPrefix) then id else ResxPrefix + id)
    ensures d == Standard ==> Id(u) == Some(id)
  {
    match d
    case RCWinTrans11 =>
      var u := Create(IdNone, source, target);
      u.(attrs := SetAttributeValue(u.attrs, AttributeResname, Some(id)))
    case MultilingualAppToolkit =>
      if !StartsWithIgnoreCase(id, ResxPrefix) then Create(ResxPrefix + id, source, target)
      else Create(id, source, target)
    case Standard => Create(id, source, target)
  }

  /**
   * The UpdateExisting path: the source is overwritten; the target text is written only
   * when a target already exists, so no target is ever created (a null target removes it).
   */
  function UpdatedUnit(u: TransUnit, source: string, target: Option<string>): (r: TransUnit)
    ensures r.source == source && r.attrs == u.attrs && r.notes == u.notes
    ensures u.target.None? ==> r.target.None?
    ensures u.target.Some? && target.Some? ==> r.target == Some(u.target.value.(text := target.value))
    ensures u.target.Some? && target.None? ==> r.target.None?
  {
    var u1 := WithSource(u, source);
    if TargetText(u1).Some? then WithTarget(u1, target) else u1
  }

  /** The attribute and value `RemoveTransUnit(id, dialect)` matches on. */
  function RemoveKey(id: string, d: Dialect): (string, string) {
    match d
    case RCWinTrans11 => (AttributeResname, id)
    case MultilingualAppToolkit => (AttributeId, ResxPrefix + id)
    case Standard => (AttributeId, id)
  }

  /** Whether unit `u` has attribute `name` equal to `value`. */
  predicate UnitMatches(u: TransUnit, name: string, value: string) {
    AttributeEquals(u.attrs, name, value)
  }

  /**
   * The units `RemoveTransUnit(name, value)` keeps, for a valid attribute name: exactly
   * those without that attribute value, in their order (Sequences.FilterConcat) and with
   * their number of copies (Sequences.FilterCount).
   */
  function UnitsWithout(units: seq<TransUnit>, name: string, value: string): (r: seq<TransUnit>)
    ensures forall i :: 0 <= i < |r| ==> r[i] in units && !UnitMatches(r[i], name, value)
    ensures forall i :: 0 <= i < |units| && !UnitMatches(units[i], name, value) ==> units[i] in r
  {
    Filter(units, u => !UnitMatches(u, name, value))
  }

  /**
   * `Export`'s filters: a non-empty state filter admits a unit whose `Optionals.TargetState`
   * is in it (never one without a target); a non-empty restype filter admits a unit whose
   * `restype` (default "") is in it; an empty (or null) filter admits every unit.
   */
  predicate Admits(u: TransUnit, stateFilter: seq<string>, restypeFilter: seq<string>) {
    && (|stateFilter| == 0 || (OptionalTargetState(u).Some? && OptionalTargetState(u).value in stateFilter))
    && (|restypeFilter| == 0 || Restype(u) in restypeFilter)
  }

  /** `units` with unit `i`'s note `k` replaced by `n`. */
  function ReplaceNote(units: seq<TransUnit>, i: nat, k: nat, n: XlfNote.Note): (r: seq<TransUnit>)
    requires i < |units| && k < |units[i].notes|
    ensures |r| == |units|
    ensures forall j :: 0 <= j < |r| && j != i ==> r[j] == units[j]
    ensures r[i].attrs == units[i].attrs && r[i].source == units[i].source && r[i].target == units[i].target
    ensures |r[i].notes| == |units[i].notes| && r[i].notes[k] == n
    ensures forall m :: 0 <= m < |r[i].notes| && m != k ==> r[i].notes[m] == units[i].notes[m]
  {
    units[i := units[i].(notes := units[i].notes[k := n])]
  }

  class XlfFile {
    /** The attributes of the `<file>` element (original, datatype, source-language, tool-id, ...). */
    const attrs: Attrs
    /** Every trans-unit of the file, in document order. */
    var units: seq<TransUnit>
    /** Whether the file element has a `<body>`. */
    var hasBody: bool

    /** The view over a `<file>` element as read from a document. */
    constructor Load(attrs: Attrs, units: seq<TransUnit>, hasBody: bool)
      ensures this.attrs == attrs && this.units == units && this.hasBody == hasBody
    {
      this.attrs := attrs;
      this.units := units;
      this.hasBody := hasBody;
    }

    /** `XlfFile(node, ns, original, dataType, sourceLang)` over a new, empty `<file>` element. */
    constructor Create(original: string, dataType: string, sourceLang: string)
      ensures attrs == map[AttributeOriginal := original, AttributeDataType := dataType,
                           AttributeSourceLanguage := sourceLang]
      ensures units == [] && !hasBody
    {
      attrs := map[AttributeOriginal := original, AttributeDataType := dataType,
                   AttributeSourceLanguage := sourceLang];
      units := [];
      hasBody := false;
    }

    /** `Original`: None where the attribute is missing (the getter dereferences null). */
    function Original(): Option<string> {
      if AttributeOriginal in attrs then Some(attrs[AttributeOriginal]) else None
    }

    function DataType(): Option<string> {
      if AttributeDataType in attrs then Some(attrs[AttributeDataType]) else None
    }

    function SourceLang(): Option<string> {
      if AttributeSourceLanguage in attrs then Some(attrs[AttributeSourceLanguage]) else None
    }

    function ToolId(): string {
      AttributeIfExists(attrs, AttributeToolId)
    }

    function TargetLang(): string {
      AttributeIfExists(attrs, AttributeTargetLanguage)
    }

    /** `GetTransUnit`: the position of the first unit with this logical id. */
    function GetTransUnit(id: string, dialect: Dialect): (r: Result<nat, FileError>)
      reads this
      ensures r.Ok? ==> r.value < |units| && GetId(units[r.value], dialect) == Some(id)
      ensures r.Ok? ==> forall j :: 0 <= j < r.value ==> Misses(units[j], id, dialect)
      ensures r == Err(NotFound) ==> forall j :: 0 <= j < |units| ==> Misses(units[j], id, dialect)
      ensures r == Err(MissingId) ==>
        exists k :: 0 <= k < |units| && GetId(units[k], dialect).None? && forall j :: 0 <= j < k ==> Misses(units[j], id, dialect)
      ensures r.Err? ==> r.error == NotFound || r.error == MissingId
    {
      FindUnit(units, id, dialect)
    }

    /**
     * `TryGetTransUnit`: both failures of the lookup are caught and reported as false with
     * no unit; false therefore means that every unit with the id comes after a unit
     * without a raw id, or that there is none.
     */
    function TryGetTransUnit(id: string, dialect: Dialect): (r: (bool, Option<nat>))
      reads this
      ensures r.0 <==> r.1.Some?
      ensures r.1.Some? ==>
        r.1.value < |units| && GetId(units[r.1.value], dialect) == Some(id)
        && forall j :: 0 <= j < r.1.value ==> Misses(units[j], id, dialect)
      ensures !r.0 ==>
        forall k :: 0 <= k < |units| && GetId(units[k], dialect) == Some(id) ==>
          exists j :: 0 <= j < k && GetId(units[j], dialect).None?
    {
      match FindUnit(units, id, dialect)
      case Ok(k) => (true, Some(k))
      case Err(_) => (false, None)
    }

    /**
     * `AddTransUnit`. When the lookup finds a unit: FailIfExists fails and changes nothing,
     * SkipExisting returns it unchanged, UpdateExisting overwrites its source (and its
     * target text only if it has a target). Otherwise a new unit is placed after the last
     * unit (or at the end of the first body, or in a new body when there is none), with the
     * dialect's raw-id encoding. The result is the unit's position.
     */
    method AddTransUnit(id: string, source: string, target: Option<string>, mode: AddMode, dialect: Dialect)
      returns (r: Result<nat, FileError>)
      modifies this`units, this`hasBody
      ensures match old(FindUnit(units, id, dialect))
        case Ok(k) =>
          && hasBody == old(hasBody)
          && (mode == FailIfExists ==> r == Err(AlreadyExists) && units == old(units))
          && (mode == SkipExisting ==> r == Ok(k) && units == old(units))
          && (mode == UpdateExisting ==>
                r == Ok(k) && units == old(units)[k := UpdatedUnit(old(units)[k], source, target)])
        case Err(_) =>
          && r == Ok(|old(units)|)
          && units == old(units) + [NewUnit(id, source, target, dialect)]
          && hasBody == (old(hasBody) || old(units) == [])
    {
      var (found, unit) := TryGetTransUnit(id, dialect);
      if found {
        var k := unit.value;
        match mode
        case FailIfExists =>
          return Err(AlreadyExists);
        case SkipExisting =>
          return Ok(k);
        case UpdateExisting =>
          units := units[k := WithSource(units[k], source)];
          if TargetText(units[k]).Some? {
            units := units[k := WithTarget(units[k], target)];
          }
          return Ok(k);
      }
      if units == [] && !hasBody {
        hasBody := true;
      }
      units := units + [NewUnit(id, source, target, dialect)];
      r := Ok(|units| - 1);
    }

    /** `AddOrUpdateTransUnit`: AddTransUnit in UpdateExisting mode, which never fails. */
    method AddOrUpdateTransUnit(id: string, source: string, target: Option<string>, dialect: Dialect)
      returns (r: Result<nat, FileError>)
      modifies this`units, this`hasBody
      ensures r.Ok?
      ensures match old(FindUnit(units, id, dialect))
        case Ok(k) =>
          r == Ok(k) && hasBody == old(hasBody)
          && units == old(units)[k := UpdatedUnit(old(units)[k], source, target)]
        case Err(_) =>
          && r == Ok(|old(units)|)
          && units == old(units) + [NewUnit(id, source, target, dialect)]
          && hasBody == (old(hasBody) || old(units) == [])
    {
      r := AddTransUnit(id, source, target, UpdateExisting, dialect);
    }

    /** `RemoveTransUnit(id, dialect)`: removes by the dialect's attribute (see RemoveKey). */
    method RemoveTransUnit(id: string, dialect: Dialect)
      modifies this`units
      ensures units == UnitsWithout(old(units), RemoveKey(id, dialect).0, RemoveKey(id, dialect).1)
    {
      var (name, value) := RemoveKey(id, dialect);
      assert name == AttributeResname || name == AttributeId;
      assert ValidName(name);
      var r := RemoveTransUnitByAttribute(name, value);
    }

    /**
     * `RemoveTransUnit(identifierName, identifierValue)`: the name is converted to an
     * `XName` once per unit, so an invalid name fails (before anything is removed) exactly
     * when the file has a unit.
     */
    method RemoveTransUnitByAttribute(name: string, value: string) returns (r: Result<(), XmlError>)
      modifies this`units
      ensures !ValidName(name) && old(units) != [] ==> r == Err(InvalidName) && units == old(units)
      ensures ValidName(name) || old(units) == [] ==> r == Ok(()) && units == UnitsWithout(old(units), name, value)
    {
      if !ValidName(name) && units != [] {
        return Err(InvalidName);
      }
      units := UnitsWithout(units, name, value);
      return Ok(());
    }

    /** `Export`: the handler receives exactly the admitted units, in document order, and the target language. */
    function Export(outputFilePath: string, stateFilter: seq<string>, restypeFilter: seq<string>, dialect: Dialect)
      : (call: ExportCall)
      reads this
      ensures call.path == outputFilePath && call.targetLanguage == TargetLang() && call.dialect == dialect
      ensures forall i :: 0 <= i < |call.units| ==> call.units[i] in units && Admits(call.units[i], stateFilter, restypeFilter)
      ensures forall i :: 0 <= i < |units| && Admits(units[i], stateFilter, restypeFilter) ==> units[i] in call.units
    {
      ExportCall(outputFilePath, Filter(units, u => Admits(u, stateFilter, restypeFilter)), TargetLang(), dialect)
    }
  }

  /** The view `XlfTransUnit` over unit `index` of `file`. */
  class TransUnitView {
    const file: XlfFile
    const index: nat

    constructor (file: XlfFile, index: nat)
      ensures this.file == file && this.index == index
    {
      this.file := file;
      this.index := index;
    }

    /** The viewed node is still there. */
    predicate Valid()
      reads file
    {
      index < |file.units|
    }

    function Node(): TransUnit
      reads file
      requires Valid()
    {
      file.units[index]
    }

    function GetId(dialect: Dialect): Option<string>
      reads file
      requires Valid()
    {
      XlfTransUnit.GetId(Node(), dialect)
    }

    function Target(): Option<string>
      reads file
      requires Valid()
    {
      TargetText(Node())
    }

    method SetSource(s: string)
      requires Valid()
      modifies file`units
      ensures file.units == old(file.units)[index := WithSource(old(Node()), s)]
    {
      file.units := file.units[index := WithSource(file.units[index], s)];
    }

    method SetTarget(v: Option<string>)
      requires Valid()
      modifies file`units
      ensures file.units == old(file.units)[index := WithTarget(old(Node()), v)]
    {
      file.units := file.units[index := WithTarget(file.units[index], v)];
    }

    method SetTargetState(v: Option<string>)
      requires Valid()
      modifies file`units
      ensures file.units == old(file.units)[index := WithTargetState(old(Node()), v)]
    {
      file.units := file.units[index := WithTargetState(file.units[index], v)];
    }

    method AddNote(comment: string, from: Option<string>)
      requires Valid()
      modifies file`units
      ensures file.units == old(file.units)[index := XlfTransUnit.AddNote(old(Node()), comment, from)]
    {
      file.units := file.units[index := XlfTransUnit.AddNote(file.units[index], comment, from)];
    }

    method SetCommentFromResx(comment: string)
      requires Valid()
      modifies file`units
      ensures file.units == old(file.units)[index := XlfTransUnit.SetCommentFromResx(old(Node()), comment)]
    {
      file.units := file.units[index := XlfTransUnit.SetCommentFromResx(file.units[index], comment)];
    }

    /**
     * `RemoveNotes(name, value)`: the name is converted to an `XName` once per note, so an
     * invalid name fails (before anything is removed) exactly when the unit has a note.
     */
    method RemoveNotes(name: string, value: string) returns (r: Result<(), XmlError>)
      requires Valid()
      modifies file`units
      ensures !ValidName(name) && old(Node()).notes != [] ==> r == Err(InvalidName) && file.units == old(file.units)
      ensures ValidName(name) || old(Node()).notes == [] ==>
        r == Ok(()) && file.units == old(file.units)[index := XlfTransUnit.RemoveNotes(old(Node()), name, value)]
    {
      if !ValidName(name) && file.units[index].notes != [] {
        return Err(InvalidName);
      }
      file.units := file.units[index := XlfTransUnit.RemoveNotes(file.units[index], name, value)];
      return Ok(());
    }

    /** `Remove`: detaches the unit from the file. */
    method Remove()
      requires Valid()
      modifies file`units
      ensures file.units == old(file.units[..index] + file.units[index + 1..])
    {
      file.units := file.units[..index] + file.units[index + 1..];
    }
  }

  /** The view `XlfNote` over note `note` of unit `unit` of `file`. */
  class NoteView {
    const file: XlfFile
    const unit: nat
    const note: nat

    constructor (file: XlfFile, unit: nat, note: nat)
      ensures this.file == file && this.unit == unit && this.note == note
    {
      this.file := file;
      this.unit := unit;
      this.note := note;
    }

    predicate Valid()
      reads file
    {
      unit < |file.units| && note < |file.units[unit].notes|
    }

    /** `GetNode`: the note node inside the owning file that this view reads and writes. */
    function GetNode(): (n: XlfNote.Note)
      reads file
      requires Valid()
      ensures n in file.units[unit].notes && n == file.units[unit].notes[note]
    {
      file.units[unit].notes[note]
    }

    function Value(): string
      reads file
      requires Valid()
    {
      GetNode().value
    }

    function Priority(): Result<Int32, XmlError>
      reads file
      requires Valid()
    {
      XlfNote.Priority(GetNode())
    }

    method SetValue(v: string)
      requires Valid()
      modifies file`units
      ensures Valid()
      ensures file.units == ReplaceNote(old(file.units), unit, note, XlfNote.WithValue(old(GetNode()), v))
      ensures Value() == v
    {
      file.units := ReplaceNote(file.units, unit, note, XlfNote.WithValue(GetNode(), v));
    }

    /** The `Annotates`, `From` and corrected `Lang` setters. */
    method SetAttribute(name: string, v: Option<string>)
      requires Valid()
      requires name == XlfNote.AttributeAnnotates || name == XlfNote.AttributeFrom || name == XlfNote.AttributeLang
      modifies file`units
      ensures Valid()
      ensures file.units == ReplaceNote(old(file.units), unit, note, XlfNote.WithAttribute(old(GetNode()), name, v))
      ensures AttributeIfExists(GetNode().attrs, name) == v.GetOr("")
      ensures Value() == old(Value())
    {
      file.units := ReplaceNote(file.units, unit, note, XlfNote.WithAttribute(GetNode(), name, v));
    }

    method SetPriority(p: Int32)
      requires Valid()
      modifies file`units
      ensures Valid()
      ensures file.units == ReplaceNote(old(file.units), unit, note, XlfNote.WithPriority(old(GetNode()), p))
      ensures Priority() == Ok(p) && Value() == old(Value())
    {
      XlfNote.PrioritySetThenGet(GetNode(), p);
      file.units := ReplaceNote(file.units, unit, note, XlfNote.WithPriority(GetNode(), p));
    }
  }

  // ---------------------------------------------------------------- properties

  /**
   * Round trip of the id encoding: the unit AddTransUnit creates for `id` answers `id` to
   * GetId under the same dialect, exactly when `id` does not already begin with "Resx/"
   * (ignoring case) in the toolkit dialect; such an id loses those five characters.
   */
  lemma NewUnitIdRoundTrip(id: string, source: string, target: Option<string>, d: Dialect)
    ensures GetId(NewUnit(id, source, target, d), d) == Some(id)
      <==> !(d == MultilingualAppToolkit && StartsWithIgnoreCase(id, ResxPrefix))
    ensures d == MultilingualAppToolkit && StartsWithIgnoreCase(id, ResxPrefix) ==>
      GetId(NewUnit(id, source, target, d), d) == Some(id[5..])
  {
    var u := NewUnit(id, source, target, d);
    if d == MultilingualAppToolkit && !StartsWithIgnoreCase(id, ResxPrefix) {
      StartsWithIgnoreCaseConcat(ResxPrefix, id);
      assert (ResxPrefix + id)[5..] == id;
    }
  }

  /**
   * RemoveTransUnit finds the unit AddTransUnit created for the same id and dialect, except
   * for a toolkit id that already carries the prefix: "Resx/" is prepended again on removal.
   */
  lemma NewUnitRemovable(id: string, source: string, target: Option<string>, d: Dialect)
    ensures UnitMatches(NewUnit(id, source, target, d), RemoveKey(id, d).0, RemoveKey(id, d).1)
      <==> !(d == MultilingualAppToolkit && StartsWithIgnoreCase(id, ResxPrefix))
  {
    if d == MultilingualAppToolkit && StartsWithIgnoreCase(id, ResxPrefix) {
      assert |ResxPrefix + id| != |id|;
    }
  }

  /** Removal in the toolkit dialect compares case-sensitively, unlike GetId: "resx/Name" is found as "Name" but not removed by it. */
  lemma ToolkitRemoveIsCaseSensitive()
    ensures var u := TransUnit(map[AttributeId := "resx/Name"], "s", None, []);
      GetId(u, MultilingualAppToolkit) == Some("Name")
      && !UnitMatches(u, RemoveKey("Name", MultilingualAppToolkit).0, RemoveKey("Name", MultilingualAppToolkit).1)
  {
    var u := TransUnit(map[AttributeId := "resx/Name"], "s", None, []);
    assert StartsWithIgnoreCase("resx/Name", ResxPrefix);
    assert "resx/Name"[5..] == "Name";
    assert ResxPrefix + "Name" != "resx/Name" by {
      assert (ResxPrefix + "Name")[0] != "resx/Name"[0];
    }
  }

  /** A unit appended to a file where the id was not found is what the lookup then returns. */
  lemma {:induction false} FindAfterAppend(units: seq<TransUnit>, u: TransUnit, id: string, d: Dialect)
    requires FindUnit(units, id, d) == Err(NotFound)
    requires GetId(u, d) == Some(id)
    ensures FindUnit(units + [u], id, d) == Ok(|units|)
    decreases |units|
  {
    if units == [] {
      assert units + [u] == [u];
    } else {
      assert (units + [u])[1..] == units[1..] + [u];
      assert Misses(units[0], id, d);
      FindAfterAppend(units[1..], u, id, d);
    }
  }

  /** After adding a new id (one that does not carry the toolkit prefix), looking it up yields the new unit. */
  lemma AddThenGet(units: seq<TransUnit>, id: string, source: string, target: Option<string>, d: Dialect)
    requires FindUnit(units, id, d) == Err(NotFound)
    requires !(d == MultilingualAppToolkit && StartsWithIgnoreCase(id, ResxPrefix))
    ensures FindUnit(units + [NewUnit(id, source, target, d)], id, d) == Ok(|units|)
  {
    NewUnitIdRoundTrip(id, source, target, d);
    FindAfterAppend(units, NewUnit(id, source, target, d), id, d);
  }

  /** With both filters empty, Export passes every unit, in document order. */
  lemma ExportUnfiltered(file: XlfFile, path: string, d: Dialect)
    ensures file.Export(path, [], [], d).units == file.units
  {
    FilterKeepsAll(file.units, u => Admits(u, [], []));
  }
}
