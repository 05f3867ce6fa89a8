/** 05-movies-hub/src/App.js: the selected movie, the watched list, and the search state,
    which here (unlike in the `useMovies` hook) asks for nothing when the query is short and
    closes the open movie when a search starts. */
module MoviesApp {
  import opened Wrappers
  import opened Seqs
  import opened MovieSearch
  import opened MovieDetails

  /** `selectedId`: null, or a movie id. The initial value is the empty id, which is falsy
      like null. */
  datatype Selection = Null | Id(id: string)

  /** The details panel is shown for a truthy `selectedId`. */
  predicate ShowsDetails(s: Selection) {
    s.Id? && s.id != ""
  }

  /** `(prevId) => (prevId === id ? null : id)`. */
  function SelectId(prev: Selection, id: string): (r: Selection)
    ensures prev == Id(id) ==> r == Null
    ensures prev != Id(id) ==> r == Id(id)
  {
    if prev == Id(id) then Null else Id(id)
  }

  /** Clicking the same movie twice closes it; clicking a different one switches to it. */
  lemma SelectTwiceCloses(prev: Selection, id: string, other: string)
    ensures SelectId(SelectId(Null, id), id) == Null
    ensures id != other ==> SelectId(Id(other), id) == Id(id)
  {
  }

  /** `watched.filter((movie) => movie.imdbID !== id)`. */
  function RemoveWatched(watched: seq<WatchedMovie>, id: string): (r: seq<WatchedMovie>)
    ensures forall m :: m in r <==> m in watched && m.imdbID != id
    ensures forall m :: multiset(r)[m] == if m.imdbID != id then multiset(watched)[m] else 0
    ensures SubsequenceOf(r, watched)
    ensures !IsWatched(r, id)
    ensures !IsWatched(watched, id) ==> r == watched
  {
    Filter(watched, (m: WatchedMovie) => m.imdbID != id)
  }

  /** Adding a movie and removing its id leaves no entry for it. */
  lemma AddThenRemove(watched: seq<WatchedMovie>, m: WatchedMovie)
    ensures IsWatched(watched + [m], m.imdbID)
    ensures !IsWatched(RemoveWatched(watched + [m], m.imdbID), m.imdbID)
  {
    assert (watched + [m])[|watched|] == m;
  }

  /** The callback props the app hands to the watched list, by name. */
  const WatchedListCallbacks: set<string> := {"onRemoveWatched"}

  /** The prop the watched list reads for its delete button as written. */
  const DeletePropAsWritten: string := "handleRemoveWatched"

  /** The prop the delete button should read: the one the app passes. */
  const DeleteProp: string := "onRemoveWatched"

  class App {
    var movies: seq<SearchHit>
    var watched: seq<WatchedMovie>
    var isLoading: bool
    var error: string
    var selectedId: Selection

    constructor ()
      ensures movies == [] && watched == [] && !isLoading && error == "" && selectedId == Id("")
    {
      movies, watched, isLoading, error, selectedId := [], [], false, "", Id("");
    }

    /** `handleSelectedId`. */
    method HandleSelectedId(id: string)
      modifies this
      ensures selectedId == SelectId(old(selectedId), id)
      ensures watched == old(watched) && movies == old(movies)
      ensures isLoading == old(isLoading) && error == old(error)
    {
      selectedId := SelectId(selectedId, id);
    }

    /** `handleCloseMovie`. */
    method HandleCloseMovie()
      modifies this
      ensures selectedId == Null && !ShowsDetails(selectedId)
      ensures watched == old(watched) && movies == old(movies)
      ensures isLoading == old(isLoading) && error == old(error)
    {
      selectedId := Null;
    }

    /** `handleAddWatched`: appends. */
    method HandleAddWatched(movie: WatchedMovie)
      modifies this
      ensures watched == old(watched) + [movie] && selectedId == old(selectedId)
      ensures movies == old(movies) && isLoading == old(isLoading) && error == old(error)
    {
      watched := watched + [movie];
    }

    /** `handleRemoveWatched`. */
    method HandleRemoveWatched(id: string)
      modifies this
      ensures watched == RemoveWatched(old(watched), id) && selectedId == old(selectedId)
      ensures movies == old(movies) && isLoading == old(isLoading) && error == old(error)
    {
      watched := RemoveWatched(watched, id);
    }

    /** A click on a watched entry's delete button. The list component calls the callback
        prop named `propName`; the app passes its remover under the name `onRemoveWatched`
        only, so any other name is undefined and the call throws a TypeError. */
    method ClickDelete(propName: string, id: string) returns (outcome: Result<(), string>)
      modifies this
      ensures outcome.Ok? <==> propName in WatchedListCallbacks
      ensures outcome.Ok? ==> watched == RemoveWatched(old(watched), id)
      ensures outcome.Err? ==> watched == old(watched)
      ensures selectedId == old(selectedId) && movies == old(movies)
      ensures isLoading == old(isLoading) && error == old(error)
    {
      if propName !in WatchedListCallbacks {
        return Err(propName + " is not a function");
      }
      HandleRemoveWatched(id);
      outcome := Ok(());
    }

    /** A callback from the details panel reaching this component. */
    method Perform(c: Callback)
      modifies this
      ensures c.AddWatched? ==> watched == old(watched) + [c.movie] && selectedId == old(selectedId)
      ensures c.CloseMovie? ==> watched == old(watched) && selectedId == Null
      ensures movies == old(movies) && isLoading == old(isLoading) && error == old(error)
    {
      match c
      case AddWatched(m) => HandleAddWatched(m);
      case CloseMovie => HandleCloseMovie();
    }

    /** The details panel's `handleAdd`: the new record is on the list and the panel is closed.
        The panel is mounted only while a movie is selected, so `selectedId` is not null. */
    method AddFromDetails(details: Details, userRating: int)
      requires selectedId.Id?
      modifies this
      ensures watched == old(watched) + [NewWatchedMovie(old(selectedId).id, details, userRating)]
      ensures selectedId == Null
      ensures movies == old(movies) && isLoading == old(isLoading) && error == old(error)
    {
      var calls := HandleAdd(selectedId.id, details, userRating);
      Perform(calls[0]);
      Perform(calls[1]);
    }

    /** The effect's synchronous part: a short query clears the list and the error and issues
        no search; otherwise the open movie is closed and the search starts. */
    method QueryChanged(query: string) returns (fetching: bool)
      modifies this
      ensures fetching <==> SearchIssued(query)
      ensures !fetching ==> movies == [] && error == "" && isLoading == old(isLoading) && selectedId == old(selectedId)
      ensures fetching ==> isLoading && error == "" && movies == old(movies) && selectedId == Null
      ensures watched == old(watched)
    {
      if |query| < 3 {
        movies := [];
        error := "";
        return false;
      }
      HandleCloseMovie();
      isLoading := true;
      error := "";
      fetching := true;
    }

    /** The effect's part after the request ends: try, catch (ignoring an abort), finally. */
    method FetchSettled(outcome: FetchOutcome)
      modifies this
      ensures (movies, error) == Settle(old(movies), old(error), outcome)
      ensures !isLoading
      ensures watched == old(watched) && selectedId == old(selectedId)
    {
      match outcome {
        case NotOk =>
          error := FetchFailedMessage;
        case NotFound =>
          error := NotFoundMessage;
        case Found(search) =>
          movies := search;
          error := "";
        case Aborted =>
        case Failed(message) =>
          error := message;
      }
      isLoading := false;
    }
  }

  /** If the app renders this watched list, the delete button as written reads a prop the app
      does not pass: the click throws and the entry stays. */
  method DeleteAsWrittenThrows(app: App, id: string) returns (outcome: Result<(), string>)
    modifies app
    ensures outcome.Err? && app.watched == old(app.watched)
  {
    outcome := app.ClickDelete(DeletePropAsWritten, id);
  }

  /** Reading the prop the app passes, the delete button removes every entry with that id. */
  method DeleteRemoves(app: App, id: string) returns (outcome: Result<(), string>)
    modifies app
    ensures outcome.Ok? && app.watched == RemoveWatched(old(app.watched), id)
    ensures !IsWatched(app.watched, id)
  {
    outcome := app.ClickDelete(DeleteProp, id);
  }
}
