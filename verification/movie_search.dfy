/** The movie-search state machine of 05-movies-hub: `{movies, isLoading, error}` driven by the
    query and by how the search request ends. The request itself is not modelled; how it ends
    is the parameter `outcome`. */
module MovieSearch {

  /** An entry of the search response's `Search` array. */
  datatype SearchHit = SearchHit(imdbID: string, title: string, year: string, poster: string)

  /** How a search request ends. */
  datatype FetchOutcome =
    | NotOk                          // the response's `ok` is false
    | NotFound                       // the body's `Response` is "False"
    | Found(search: seq<SearchHit>)  // the body's `Search` array
    | Aborted                        // the controller aborted the request (an `AbortError`)
    | Failed(message: string)        // any other error thrown, with its message

  const FetchFailedMessage: string := "Something went wrong with fetching movies"
  const NotFoundMessage: string := "Movie not found!"
  const ShortQueryMessage: string := "Type at least three characters in the search field!"

  /** A search is issued only for queries of at least three characters. */
  predicate SearchIssued(query: string) {
    |query| >= 3
  }

  /** The `movies` and `error` the try/catch leaves once the request ends, from those it
      found. */
  function Settle(movies: seq<SearchHit>, error: string, outcome: FetchOutcome): (r: (seq<SearchHit>, string))
    ensures outcome.NotOk? ==> r == (movies, FetchFailedMessage)
    ensures outcome.NotFound? ==> r == (movies, NotFoundMessage)
    ensures outcome.Found? ==> r == (outcome.search, "")
    ensures outcome.Aborted? ==> r == (movies, error)
    ensures outcome.Failed? ==> r == (movies, outcome.message)
    // Only a successful search replaces the list.
    ensures !outcome.Found? ==> r.0 == movies
  {
    match outcome
    case NotOk => (movies, FetchFailedMessage)
    case NotFound => (movies, NotFoundMessage)
    case Found(search) => (search, "")
    case Aborted => (movies, error)
    case Failed(message) => (movies, message)
  }

  /** 05-movies-hub/src/hooks/useMovies.js: the hook's state and its effect, split at the
      `await` into the part run when the query changes and the part run when the request
      ends. */
  class UseMovies {
    var movies: seq<SearchHit>
    var isLoading: bool
    var error: string

    constructor ()
      ensures movies == [] && !isLoading && error == ""
    {
      movies, isLoading, error := [], false, "";
    }

    /** The effect's synchronous part: a short query clears the list and asks for more
        characters; otherwise the request starts, with the loading flag up and no error. */
    method QueryChanged(query: string) returns (fetching: bool)
      modifies this
      ensures fetching <==> SearchIssued(query)
      ensures !fetching ==> movies == [] && error == ShortQueryMessage && isLoading == old(isLoading)
      ensures fetching ==> isLoading && error == "" && movies == old(movies)
    {
      if |query| < 3 {
        movies := [];
        error := ShortQueryMessage;
        return false;
      }
      isLoading := true;
      error := "";
      fetching := true;
    }

    /** The effect's part after the request ends: try, catch (ignoring an abort), finally. */
    method FetchSettled(outcome: FetchOutcome)
      modifies this
      ensures (movies, error) == Settle(old(movies), old(error), outcome)
      ensures !isLoading
    {
      match outcome {
        case NotOk =>
          error := FetchFailedMessage;
        case NotFound =>
          error := NotFoundMessage;
        case Found(search) =>
          movies := search;
          error := "";
        case Aborted =>
        case Failed(message) =>
          error := message;
      }
      isLoading := false;
    }
  }
}
