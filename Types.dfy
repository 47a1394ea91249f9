/** The domain records shared by every component (types.ts). */
module Types {
  import opened Wrappers

  /** The four entertainment kinds. */
  datatype EntertainmentType = Movie | TVShow | Book | Game

  /**
   * One recommended item. `title` is the identity key in the view and both stores.
   * The source's `type` field is called `kind` here; the floating-point critic
   * `rating` is display-only and not modelled.
   */
  datatype Recommendation = Recommendation(
    title: string,
    kind: EntertainmentType,
    year: int,
    genres: seq<string>,
    shortDescription: string,
    personalizationReason: string,
    posterUrl: Option<string>)

  /** The view's type filter: `EntertainmentType | 'All'`. */
  datatype Filter = All | OfType(kind: EntertainmentType)

  /** The three free-text preference fields forwarded from the form to the service. */
  datatype Preferences = Preferences(mood: string, genres: string, likeThis: string)
}
