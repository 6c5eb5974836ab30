/**
 * The `<trans-unit>` element as a value: its attributes (`id`, `resname`, `restype`, ...),
 * its `<source>` text, at most one `<target>` (text and optional `state`) and its notes
 * in document order. The functions say what `XlfTransUnit`'s getters read and what its
 * setters leave behind; `XlfFile.TransUnitView` applies them in place.
 */
module XlfTransUnit {
  import opened Wrappers
  import opened XmlUtil
  import opened XlfDialect
  import opened Sequences
  import XlfNote

  const ResxPrefix := "Resx/"
  const AttributeId := "id"
  const AttributeResname := "resname"
  const AttributeRestype := "restype"
  const AttributeState := "state"
  const TargetStateNew := "new"

  /** A `<target>` element: its text and its `state` attribute. */
  datatype Target = Target(text: string, state: Option<string>)

  datatype TransUnit = TransUnit(
    attrs: Attrs,
    source: string,
    target: Option<Target>,
    notes: seq<XlfNote.Note>)

  // ---------------------------------------------------------------- reads

  /** The raw `id` attribute; None where `Attribute("id").Value` dereferences null. */
  function Id(u: TransUnit): Option<string> {
    if AttributeId in u.attrs then Some(u.attrs[AttributeId]) else None
  }

  function Resname(u: TransUnit): string {
    AttributeIfExists(u.attrs, AttributeResname)
  }

  function Restype(u: TransUnit): string {
    AttributeIfExists(u.attrs, AttributeRestype)
  }

  /**
   * `GetId`: the unit's logical id under a dialect. The raw id is read first whatever the
   * dialect, so a unit without `id` fails (None) in every dialect. RCWinTrans11 answers the
   * `resname` attribute, read through a default-"" accessor, so the `?? Id` fallback never
   * applies. The toolkit dialect strips a leading "Resx/" matched ignoring case.
   */
  function GetId(u: TransUnit, d: Dialect): (r: Option<string>)
    ensures r.None? <==> Id(u).None?
    ensures r.Some? && d != RCWinTrans11 ==>
      |r.value| <= |Id(u).value| && r.value == Id(u).value[|Id(u).value| - |r.value|..]
  {
    match Id(u)
    case None => None
    case Some(id) =>
      match d
      case RCWinTrans11 => Some(Resname(u))
      case MultilingualAppToolkit =>
        if StartsWithIgnoreCase(id, ResxPrefix) then Some(id[|ResxPrefix|..]) else Some(id)
      case Standard => Some(id)
  }

  /** `Target` getter: the target's text, or null when there is no target. */
  function TargetText(u: TransUnit): (r: Option<string>)
    ensures r.None? <==> u.target.None?
    ensures r.Some? ==> r.value == u.target.value.text
  {
    match u.target
    case None => None
    case Some(t) => Some(t.text)
  }

  /** `XlfTransUnit.TargetState` getter: null without a target or without a `state`. */
  function TargetState(u: TransUnit): (r: Option<string>)
    ensures r.Some? ==> u.target.Some? && u.target.value.state == r
    ensures u.target.Some? && u.target.value.state.Some? ==> r.Some?
  {
    match u.target
    case None => None
    case Some(t) => t.state
  }

  /** `Optionals.TargetState` getter: null without a target, "" for a target without `state`. */
  function OptionalTargetState(u: TransUnit): (r: Option<string>)
    ensures r.None? <==> u.target.None?
    ensures r.Some? ==> r.value == u.target.value.state.GetOr("")
  {
    match u.target
    case None => None
    case Some(t) => Some(t.state.GetOr(""))
  }

  // ---------------------------------------------------------------- writes

  /** `Source` setter: replaces the source text, nothing else. */
  function WithSource(u: TransUnit, s: string): (r: TransUnit)
    ensures r.source == s
    ensures r.attrs == u.attrs && r.target == u.target && r.notes == u.notes
  {
    u.(source := s)
  }

  /**
   * `Target` setter. Without a target, a new target holding the value (empty for null) is
   * inserted right after the source. With a target, its text is replaced and its `state`
   * kept; a null value removes the target (`SetElementValue` with null).
   */
  function WithTarget(u: TransUnit, v: Option<string>): (r: TransUnit)
    ensures r.attrs == u.attrs && r.source == u.source && r.notes == u.notes
    ensures u.target.None? ==> r.target == Some(Target(v.GetOr(""), None))
    ensures u.target.Some? && v.Some? ==> r.target == Some(u.target.value.(text := v.value))
    ensures u.target.Some? && v.None? ==> r.target.None?
  {
    match u.target
    case None => u.(target := Some(Target(v.GetOr(""), None)))
    case Some(t) =>
      match v
      case None => u.(target := None)
      case Some(text) => u.(target := Some(t.(text := text)))
  }

  /** Both `TargetState` setters: write `state` on the target; without a target, do nothing. */
  function WithTargetState(u: TransUnit, v: Option<string>): (r: TransUnit)
    ensures r.attrs == u.attrs && r.source == u.source && r.notes == u.notes
    ensures u.target.None? ==> r == u
    ensures u.target.Some? ==> r.target == Some(u.target.value.(state := v))
  {
    match u.target
    case None => u
    case Some(t) => u.(target := Some(t.(state := v)))
  }

  /** `AddNote(comment, from)`: appends one note; `from` is written only when not blank. */
  function AddNote(u: TransUnit, comment: string, from: Option<string>): (r: TransUnit)
    ensures r.attrs == u.attrs && r.source == u.source && r.target == u.target
    ensures |r.notes| == |u.notes| + 1 && r.notes[..|u.notes|] == u.notes
    ensures r.notes[|u.notes|].value == comment
    ensures IsNullOrWhiteSpace(from) ==> r.notes[|u.notes|].attrs == map[]
    ensures !IsNullOrWhiteSpace(from) ==> r.notes[|u.notes|].attrs == map[XlfNote.AttributeFrom := from.value]
  {
    var n := XlfNote.Create(comment);
    var n' := if IsNullOrWhiteSpace(from) then n else XlfNote.WithAttribute(n, XlfNote.AttributeFrom, from);
    assert !IsNullOrWhiteSpace(from) ==> n'.attrs == map[XlfNote.AttributeFrom := from.value];
    u.(notes := u.notes + [n'])
  }

  /**
   * `SetCommentFromResx`: with notes, the first note's text is overwritten and the others
   * kept; without notes, one note is added.
   */
  function SetCommentFromResx(u: TransUnit, comment: string): (r: TransUnit)
    ensures r.attrs == u.attrs && r.source == u.source && r.target == u.target
    ensures |u.notes| > 0 ==>
      |r.notes| == |u.notes| && r.notes[0] == u.notes[0].(value := comment) && r.notes[1..] == u.notes[1..]
    ensures |u.notes| == 0 ==> r.notes == [XlfNote.Create(comment)]
  {
    if |u.notes| > 0 then u.(notes := u.notes[0 := XlfNote.WithValue(u.notes[0], comment)])
    else AddNote(u, comment, Some(""))
  }

  /** Whether a note carries attribute `name` with exactly `value`. */
  predicate NoteMatches(n: XlfNote.Note, name: string, value: string) {
    AttributeEquals(n.attrs, name, value)
  }

  /**
   * `RemoveNotes(name, value)` for a valid attribute name: deletes exactly the notes whose
   * attribute `name` equals `value`; the others keep their order (Sequences.FilterConcat)
   * and their number of copies (Sequences.FilterCount).
   */
  function RemoveNotes(u: TransUnit, name: string, value: string): (r: TransUnit)
    ensures r.attrs == u.attrs && r.source == u.source && r.target == u.target
    ensures forall i :: 0 <= i < |r.notes| ==> r.notes[i] in u.notes && !NoteMatches(r.notes[i], name, value)
    ensures forall i :: 0 <= i < |u.notes| && !NoteMatches(u.notes[i], name, value) ==> u.notes[i] in r.notes
  {
    u.(notes := Filter(u.notes, n => !NoteMatches(n, name, value)))
  }

  /**
   * The constructor `XlfTransUnit(node, ns, id, source, target)` on a fresh element: sets
   * `id` and the source, and creates a target only for a target that is not null or blank.
   */
  function Create(rawId: string, source: string, target: Option<string>): (u: TransUnit)
    ensures Id(u) == Some(rawId) && u.source == source && u.notes == []
    ensures u.target.Some? <==> !IsNullOrWhiteSpace(target)
    ensures u.target.Some? ==> u.target.value == Target(target.value, None)
  {
    var u := TransUnit(map[AttributeId := rawId], source, None, []);
    if IsNullOrWhiteSpace(target) then u else WithTarget(u, target)
  }

  // ---------------------------------------------------------------- properties

  /** Standard dialect: the logical id is the raw id. */
  lemma GetIdStandard(u: TransUnit)
    requires Id(u).Some?
    ensures GetId(u, Standard) == Id(u)
  {
  }

  /** RCWinTrans11: the logical id is `resname`, and "" (not the raw id) when `resname` is missing. */
  lemma GetIdRCWinTrans11(u: TransUnit)
    requires Id(u).Some?
    ensures GetId(u, RCWinTrans11) == Some(Resname(u))
    ensures AttributeResname !in u.attrs ==> GetId(u, RCWinTrans11) == Some("")
  {
  }

  /** Toolkit dialect: a raw id beginning with "Resx/" in any case loses those five characters; any other is kept. */
  lemma GetIdToolkit(u: TransUnit)
    requires Id(u).Some?
    ensures StartsWithIgnoreCase(Id(u).value, ResxPrefix) ==> GetId(u, MultilingualAppToolkit) == Some(Id(u).value[5..])
    ensures !StartsWithIgnoreCase(Id(u).value, ResxPrefix) ==> GetId(u, MultilingualAppToolkit) == Id(u)
  {
  }

  /** Setting a target never yields two targets, and reading the text back gives the value set. */
  lemma TargetSetThenGet(u: TransUnit, v: string)
    ensures TargetText(WithTarget(u, Some(v))) == Some(v)
    ensures TargetState(WithTarget(u, Some(v))) == TargetState(u)
  {
  }

  /** Setting a state never creates a target; with a target, the state reads back. */
  lemma TargetStateSetThenGet(u: TransUnit, v: Option<string>)
    ensures TargetText(WithTargetState(u, v)) == TargetText(u)
    ensures u.target.None? ==> TargetState(WithTargetState(u, v)) == None
    ensures u.target.Some? ==> TargetState(WithTargetState(u, v)) == v
    ensures u.target.Some? ==> OptionalTargetState(WithTargetState(u, v)) == Some(v.GetOr(""))
  {
  }

  /** A note lacking the attribute is still among the notes after `RemoveNotes`. */
  lemma RemoveNotesKeepsUnattributed(u: TransUnit, name: string, value: string, i: nat)
    requires i < |u.notes| && name !in u.notes[i].attrs
    ensures u.notes[i] in RemoveNotes(u, name, value).notes
  {
  }
}
