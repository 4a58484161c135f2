/** The two record kinds of the dataset and the arena conventions that link them.

    NEOs and close approaches live in two sequences. A link is an index into the
    other sequence instead of an object reference. */
module Models {
  import opened Outcomes

  /** A calendar instant: `date` is a day number, ordered like calendar dates,
      and `clock` is the time of day on that date. */
  datatype Time = Time(date: int, clock: int)

  /** A near-Earth object. `name` is `None` when the catalogue gives none,
      `diameter` is `None` when it is unknown (the float NaN), and
      `approaches` holds indices into the approach sequence. */
  datatype Neo = Neo(
    designation: string,
    name: Option<string>,
    diameter: Option<real>,
    hazardous: bool,
    approaches: seq<nat>)

  /** A close approach. `designation` is the foreign key read from the data
      file; `neo` is the index of the linked NEO, or `None` when unlinked. */
  datatype Approach = Approach(
    designation: string,
    time: Time,
    distance: real,
    velocity: real,
    neo: Option<nat>)

  /** The exceptions raised while querying and writing. */
  datatype Fault =
    | NeoIsNone         // AttributeError: an attribute was read from `approach.neo` while it was None
    | EntryHasNoNeo     // AttributeError: `.neo` was read from a plain dict

  /** Python truthiness of `neo.name`: both `None` and `''` are false. */
  predicate HasName(n: Neo) {
    n.name.Some? && n.name.value != ""
  }

  /** `neo.name if neo.name else ''`. */
  function NameText(n: Neo): string {
    if HasName(n) then n.name.value else ""
  }

  /** Every link held by an approach points into the NEO sequence. */
  predicate LinksInRange(neos: seq<Neo>, approaches: seq<Approach>) {
    forall i :: 0 <= i < |approaches| && approaches[i].neo.Some? ==> approaches[i].neo.value < |neos|
  }
}
