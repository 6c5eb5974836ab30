/**
 * One RESX resource entry and its ordering.
 *
 * `ResXEntry` compares by `Id` alone. The source compares with the culture-aware
 * `String.CompareTo`; the model uses ordinal (code-point) order, a total order with the
 * same shape: zero exactly for equal strings, antisymmetric and transitive.
 */
module ResXEntry {
  import opened Wrappers

  /** A resource: name, value (null when the unit had no target) and comment. */
  datatype ResXEntry = ResXEntry(id: string, value: Option<string>, comment: string)

  /** The default entry: all three properties are "". */
  function Default(): (e: ResXEntry)
    ensures e.id == "" && e.value == Some("") && e.comment == ""
  {
    ResXEntry("", Some(""), "")
  }

  /** Ordinal three-way comparison of two strings: -1, 0 or 1. */
  function CompareOrdinal(a: string, b: string): (r: int)
    ensures -1 <= r <= 1
    ensures r == 0 <==> a == b
  {
    if a == [] && b == [] then 0
    else if a == [] then -1
    else if b == [] then 1
    else if a[0] < b[0] then -1
    else if a[0] > b[0] then 1
    else
      var r := CompareOrdinal(a[1..], b[1..]);
      assert a == [a[0]] + a[1..] && b == [b[0]] + b[1..];
      r
  }

  /** Swapping the arguments negates the comparison. */
  lemma {:induction false} CompareAntisymmetric(a: string, b: string)
    ensures CompareOrdinal(a, b) == -CompareOrdinal(b, a)
    decreases |a|
  {
    if a != [] && b != [] && a[0] == b[0] {
      CompareAntisymmetric(a[1..], b[1..]);
    }
  }

  /** The "at most" relation of the comparison is transitive. */
  lemma {:induction false} CompareTransitive(a: string, b: string, c: string)
    requires CompareOrdinal(a, b) <= 0 && CompareOrdinal(b, c) <= 0
    ensures CompareOrdinal(a, c) <= 0
    decreases |a|
  {
    if a != [] && b != [] && c != [] && a[0] == b[0] && b[0] == c[0] {
      CompareTransitive(a[1..], b[1..], c[1..]);
    }
  }

  /** The argument of `CompareTo(object)`: another entry, any other object (by its `ToString()`), or null. */
  datatype Obj = EntryObj(entry: ResXEntry) | OtherObj(text: string) | NullObj

  /** `obj.ToString()` on a null object. */
  datatype NullReference = NullReference

  /**
   * `CompareTo`: against an entry, compares the two Ids; against another object, compares
   * the Id with the object's string form; null is dereferenced and fails.
   */
  function CompareTo(e: ResXEntry, obj: Obj): (r: Result<int, NullReference>)
    ensures r.Err? <==> obj.NullObj?
    ensures obj.EntryObj? ==> (r.value == 0 <==> e.id == obj.entry.id)
    ensures obj.OtherObj? ==> (r.value == 0 <==> e.id == obj.text)
  {
    match obj
    case EntryObj(other) => Ok(CompareOrdinal(e.id, other.id))
    case OtherObj(text) => Ok(CompareOrdinal(e.id, text))
    case NullObj => Err(NullReference)
  }

  /** Between entries only the Ids matter: values and comments never affect the order. */
  lemma CompareToOnlyIds(a: ResXEntry, a': ResXEntry, b: ResXEntry, b': ResXEntry)
    requires a.id == a'.id && b.id == b'.id
    ensures CompareTo(a, EntryObj(b)) == CompareTo(a', EntryObj(b'))
  {
  }

  /** An entry equals itself, and comparing the other way round gives the opposite sign. */
  lemma CompareToReflexiveAntisymmetric(a: ResXEntry, b: ResXEntry)
    ensures CompareTo(a, EntryObj(a)) == Ok(0)
    ensures CompareTo(a, EntryObj(b)).value == -CompareTo(b, EntryObj(a)).value
  {
    CompareAntisymmetric(a.id, b.id);
  }

  // ---------------------------------------------------------------- sorting

  /** `a` sorts no later than `b` under `CompareTo`. */
  predicate NotAfter(a: ResXEntry, b: ResXEntry) {
    CompareOrdinal(a.id, b.id) <= 0
  }

  /** Every entry is `NotAfter` its successor. */
  predicate SortedById(s: seq<ResXEntry>) {
    forall i :: 0 <= i < |s| - 1 ==> NotAfter(s[i], s[i + 1])
  }

  /** In a sorted list, every earlier entry is `NotAfter` every later one. */
  lemma {:induction false} SortedPairwise(s: seq<ResXEntry>, i: int, j: int)
    requires SortedById(s)
    requires 0 <= i <= j < |s|
    ensures NotAfter(s[i], s[j])
    decreases j - i
  {
    if i == j {
      assert CompareOrdinal(s[i].id, s[i].id) == 0;
    } else {
      SortedPairwise(s, i + 1, j);
      CompareTransitive(s[i].id, s[i + 1].id, s[j].id);
    }
  }

  /** Inserts `x` before the first entry it is `NotAfter`. */
  function Insert(x: ResXEntry, s: seq<ResXEntry>): (r: seq<ResXEntry>)
    requires SortedById(s)
    ensures SortedById(r)
    ensures multiset(r) == multiset(s) + multiset{x}
    ensures |r| == |s| + 1
    ensures r[0] == x || (s != [] && r[0] == s[0])
  {
    if s == [] then [x]
    else if NotAfter(x, s[0]) then [x] + s
    else
      CompareAntisymmetric(x.id, s[0].id);
      var t := Insert(x, s[1..]);
      assert s == [s[0]] + s[1..];
      [s[0]] + t
  }

  /**
   * `List.Sort` with `CompareTo`: the result is ordered by Id and holds the same entries.
   * Order among entries with equal Ids is not specified.
   */
  method Sort(entries: seq<ResXEntry>) returns (sorted: seq<ResXEntry>)
    ensures SortedById(sorted)
    ensures multiset(sorted) == multiset(entries)
  {
    sorted := [];
    var i := 0;
    while i < |entries|
      invariant 0 <= i <= |entries|
      invariant SortedById(sorted)
      invariant multiset(sorted) == multiset(entries[..i])
    {
      sorted := Insert(entries[i], sorted);
      assert entries[..i + 1] == entries[..i] + [entries[i]];
      i := i + 1;
    }
    assert entries[..i] == entries;
  }
}
