/**
 * The `<note>` element: its text and its optional attributes `annotates`, `from`,
 * `xml:lang` and `priority`. The pure functions here say what a read returns and what
 * a write leaves behind; the view that edits a note in place is `XlfFile.NoteView`.
 */
module XlfNote {
  import opened Wrappers
  import opened XmlUtil

  const AttributeAnnotates := "annotates"
  const AttributeFrom := "from"
  const AttributeLang := "xml:lang"
  const AttributePriority := "priority"

  /** A note element: its text content and its attributes. */
  datatype Note = Note(value: string, attrs: Attrs)

  /** `new XElement(note, comment)`: a note with this text and no attributes. */
  function Create(comment: string): (n: Note)
    ensures n.value == comment && n.attrs == map[]
  {
    Note(comment, map[])
  }

  /** The `Value` setter replaces the text and keeps the attributes. */
  function WithValue(n: Note, v: string): (r: Note)
    ensures r.value == v && r.attrs == n.attrs
  {
    n.(value := v)
  }

  /** Writes one attribute of the note (a null value removes it); the text is kept. */
  function WithAttribute(n: Note, name: string, v: Option<string>): (r: Note)
    ensures r.value == n.value
    ensures AttributeIfExists(r.attrs, name) == v.GetOr("")
    ensures forall other :: other != name ==> AttributeIfExists(r.attrs, other) == AttributeIfExists(n.attrs, other)
  {
    n.(attrs := SetAttributeValue(n.attrs, name, v))
  }

  /** The `Annotates` getter: the attribute's value, "" when missing; the read never fails. */
  function Annotates(n: Note): (r: string)
    ensures GetAttributeIfExists(Some(n.attrs), AttributeAnnotates) == Ok(r)
    ensures AttributeAnnotates !in n.attrs ==> r == ""
  {
    AttributeIfExists(n.attrs, AttributeAnnotates)
  }

  /** The `From` getter: the attribute's value, "" when missing; the read never fails. */
  function From(n: Note): (r: string)
    ensures GetAttributeIfExists(Some(n.attrs), AttributeFrom) == Ok(r)
    ensures AttributeFrom !in n.attrs ==> r == ""
  {
    AttributeIfExists(n.attrs, AttributeFrom)
  }

  /**
   * The corrected `Lang` getter: reads the `lang` attribute of the XML namespace, which
   * the model keys by its qualified name "xml:lang"; "" when missing.
   */
  function Lang(n: Note): (r: string)
    ensures AttributeLang in n.attrs ==> r == n.attrs[AttributeLang]
    ensures AttributeLang !in n.attrs ==> r == ""
  {
    AttributeIfExists(n.attrs, AttributeLang)
  }

  /**
   * `Lang` as written passes the string "xml:lang" where an XName is expected; a colon is
   * not allowed in a local name, so every read raises an XmlException (and so does every
   * write, through the same conversion).
   */
  function LangAsWritten(n: Note): (r: Result<string, XmlError>)
    ensures r == Err(InvalidName)
  {
    assert AttributeLang[0] != '{' && AttributeLang[3] == ':';
    GetAttributeIfExists(Some(n.attrs), AttributeLang)
  }

  /**
   * The `Lang` setter as written: the same "xml:lang" conversion fails before anything is
   * written, whatever the value.
   */
  function WithLangAsWritten(n: Note, v: Option<string>): (r: Result<Note, XmlError>)
    ensures r == Err(InvalidName)
  {
    assert AttributeLang[0] != '{' && AttributeLang[3] == ':';
    if ValidName(AttributeLang) then Ok(WithAttribute(n, AttributeLang, v)) else Err(InvalidName)
  }

  function Priority(n: Note): (r: Result<Int32, XmlError>)
    ensures AttributePriority !in n.attrs ==> r == Ok(0)
    ensures AttributePriority in n.attrs ==> r == ParseInt(n.attrs[AttributePriority])
    ensures r.Err? ==> r.error == FormatError || r.error == OverflowError
  {
    GetIntAttributeIfExists(Some(n.attrs), AttributePriority)
  }

  /** The `Priority` setter writes the integer in decimal. */
  function WithPriority(n: Note, p: Int32): (r: Note)
    ensures r.value == n.value
    ensures forall other :: other != AttributePriority ==> AttributeIfExists(r.attrs, other) == AttributeIfExists(n.attrs, other)
  {
    WithAttribute(n, AttributePriority, Some(IntToString(p)))
  }

  // ---------------------------------------------------------------- properties

  /** Missing optional attributes read as "" and a missing priority as 0. */
  lemma MissingAttributesReadDefaults(comment: string)
    ensures var n := Create(comment);
      Annotates(n) == "" && From(n) == "" && Lang(n) == "" && Priority(n) == Ok(0)
  {
  }

  /** Setting the text and reading it back returns the text set, attributes untouched. */
  lemma ValueSetThenGet(n: Note, v: string)
    ensures WithValue(n, v).value == v
    ensures Annotates(WithValue(n, v)) == Annotates(n) && From(WithValue(n, v)) == From(n)
    ensures Lang(WithValue(n, v)) == Lang(n) && Priority(WithValue(n, v)) == Priority(n)
  {
  }

  /** Setting `from` changes `from` only. */
  lemma FromSetThenGet(n: Note, v: Option<string>)
    ensures From(WithAttribute(n, AttributeFrom, v)) == v.GetOr("")
    ensures var r := WithAttribute(n, AttributeFrom, v);
      r.value == n.value && Annotates(r) == Annotates(n) && Lang(r) == Lang(n) && Priority(r) == Priority(n)
  {
    var r := WithAttribute(n, AttributeFrom, v);
    assert AttributeIfExists(r.attrs, AttributePriority) == AttributeIfExists(n.attrs, AttributePriority);
    assert (AttributePriority in r.attrs) == (AttributePriority in n.attrs);
  }

  /** Setting `annotates` changes `annotates` only. */
  lemma AnnotatesSetThenGet(n: Note, v: Option<string>)
    ensures Annotates(WithAttribute(n, AttributeAnnotates, v)) == v.GetOr("")
    ensures var r := WithAttribute(n, AttributeAnnotates, v);
      r.value == n.value && From(r) == From(n) && Lang(r) == Lang(n) && Priority(r) == Priority(n)
  {
    var r := WithAttribute(n, AttributeAnnotates, v);
    assert (AttributePriority in r.attrs) == (AttributePriority in n.attrs);
  }

  /** Setting `xml:lang` (corrected reading) changes `xml:lang` only. */
  lemma LangSetThenGet(n: Note, v: Option<string>)
    ensures Lang(WithAttribute(n, AttributeLang, v)) == v.GetOr("")
    ensures var r := WithAttribute(n, AttributeLang, v);
      r.value == n.value && From(r) == From(n) && Annotates(r) == Annotates(n) && Priority(r) == Priority(n)
  {
    var r := WithAttribute(n, AttributeLang, v);
    assert (AttributePriority in r.attrs) == (AttributePriority in n.attrs);
  }

  /** Setting the priority and reading it back returns the priority set. */
  lemma PrioritySetThenGet(n: Note, p: Int32)
    ensures Priority(WithPriority(n, p)) == Ok(p)
    ensures var r := WithPriority(n, p);
      r.value == n.value && From(r) == From(n) && Annotates(r) == Annotates(n) && Lang(r) == Lang(n)
  {
    IntRoundTrip(p);
  }

  /** Whatever the note holds, the `Lang` accessor as written fails, where the corrected one reads the value. */
  lemma LangAsWrittenFails(n: Note)
    requires AttributeLang in n.attrs
    ensures LangAsWritten(n).Err? && Lang(n) == n.attrs[AttributeLang]
  {
  }
}
