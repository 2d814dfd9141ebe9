/**
 * The browser's local storage, reduced to the two slots the selection
 * logic writes: the cached collection and the last selection score.
 * Serialisation to and from JSON text is not modelled: a slot holds the
 * value itself.
 */
module Store {
  import opened Wrappers
  import opened Games

  class LocalStorage {
    /** The `bgg_collection` slot; `None` when nothing is stored. */
    var collection: Option<Snapshot>
    /** The `selectedGameScore` slot; `None` when nothing is stored. */
    var selectedGameScore: Option<real>

    constructor (collection: Option<Snapshot>, selectedGameScore: Option<real>)
      ensures this.collection == collection && this.selectedGameScore == selectedGameScore
    {
      this.collection := collection;
      this.selectedGameScore := selectedGameScore;
    }
  }
}
