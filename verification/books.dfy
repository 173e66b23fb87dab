/**
 The records exchanged between the chat front-end and the recommendation
 service: the preferences sent (`BookPref`) and the books returned (`BookOut`).
 */
module Books {
  import opened Basics

  /** `BookPref`: the three preference lists a recommendation is asked for. */
  datatype Prefs = Prefs(favorites: seq<string>, genres: seq<string>, authors: seq<string>)

  /** `BookOut`: one recommendation; author and reason are optional. */
  datatype Book = Book(title: string, author: Option<string>, reason: Option<string>)

  /** The title returned when nothing usable was recommended. */
  const NoRecommendations := "(нет рекомендаций)"

  const Placeholder := Book(NoRecommendations, None, None)
}
