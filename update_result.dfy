/** The outcome record of an update: the ids added, removed and updated. */
module UpdateResult {

  datatype UpdateResult = UpdateResult(addedItems: seq<string>, removedItems: seq<string>, updatedItems: seq<string>)

  /** `Any()`: false exactly for the result with nothing added, removed or updated. */
  predicate Any(r: UpdateResult): (b: bool)
    ensures !b <==> r == UpdateResult([], [], [])
  {
    |r.addedItems| > 0 || |r.removedItems| > 0 || |r.updatedItems| > 0
  }

  /** The constructor stores the three sequences unchanged. */
  function Create(addedItems: seq<string>, removedItems: seq<string>, updatedItems: seq<string>): (r: UpdateResult)
    ensures r.addedItems == addedItems && r.removedItems == removedItems && r.updatedItems == updatedItems
  {
    UpdateResult(addedItems, removedItems, updatedItems)
  }

  /** Any item in any of the three lists makes `Any()` true. */
  lemma AnyWitness(r: UpdateResult, id: string)
    requires id in r.addedItems || id in r.removedItems || id in r.updatedItems
    ensures Any(r)
  {
  }
}
