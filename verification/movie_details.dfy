/** 05-movies-hub/src/components/MovieDetails.js: whether the selected movie is already on the
    watched list, the rating given to it there, and the record `handleAdd` builds. The
    movie's details come from a request that is not modelled; they are the parameter
    `details`. */
module MovieDetails {
  import opened Wrappers

  /** A watched-list record. `imdbRating` keeps the text the service sent:
      `Number(imdbRating)` is a floating-point conversion, not modelled. */
  datatype WatchedMovie = WatchedMovie(imdbID: string, title: string, year: string, poster: string,
                                       imdbRating: string, runtime: NumberValue, userRating: int)

  /** The result of JavaScript's `Number(text)` on the texts modelled: a natural number, or NaN. */
  datatype NumberValue = Num(value: nat) | NaN

  /** The fields of the details response that are read. */
  datatype Details = Details(title: string, year: string, poster: string, imdbRating: string, runtime: string)

  const PlaceholderPoster: string := "https://via.placeholder.com/400"

  /** `watched.map((movie) => movie.imdbID).includes(selectedId)`. */
  function IsWatched(watched: seq<WatchedMovie>, selectedId: string): (b: bool)
    ensures b <==> exists i :: 0 <= i < |watched| && watched[i].imdbID == selectedId
  {
    if watched == [] then false
    else watched[0].imdbID == selectedId || IsWatched(watched[1..], selectedId)
  }

  /** `watched.find((movie) => movie.imdbID === selectedId)?.userRating`. */
  function WatchedUserRating(watched: seq<WatchedMovie>, selectedId: string): (r: Option<int>)
    ensures r.None? <==> !IsWatched(watched, selectedId)
    ensures r.Some? ==> exists i :: (0 <= i < |watched| && watched[i].imdbID == selectedId
      && r.value == watched[i].userRating
      && forall j :: 0 <= j < i ==> watched[j].imdbID != selectedId)
  {
    if watched == [] then None
    else if watched[0].imdbID == selectedId then Some(watched[0].userRating)
    else
      var r := WatchedUserRating(watched[1..], selectedId);
      assert r.Some? ==> exists i :: (0 <= i < |watched| && watched[i].imdbID == selectedId
        && r.value == watched[i].userRating
        && forall j :: 0 <= j < i ==> watched[j].imdbID != selectedId) by {
        if r.Some? {
          var tail := watched[1..];
          var i :| 0 <= i < |tail| && tail[i].imdbID == selectedId && r.value == tail[i].userRating
            && forall j :: 0 <= j < i ==> tail[j].imdbID != selectedId;
          assert watched[i + 1] == tail[i];
          assert forall j :: 0 <= j < i + 1 ==> watched[j].imdbID != selectedId by {
            forall j | 0 < j < i + 1 ensures watched[j].imdbID != selectedId {
              assert watched[j] == tail[j - 1];
            }
          }
        }
      }
      r
  }

  /** `runtime.split(" ").at(0)`: the text before the first space. */
  function FirstWord(s: string): (w: string)
    ensures ' ' !in w
    ensures w <= s
    ensures |w| < |s| ==> s[|w|] == ' '
  {
    if s == [] || s[0] == ' ' then [] else [s[0]] + FirstWord(s[1..])
  }

  predicate IsDigit(c: char) {
    '0' <= c <= '9'
  }

  /** Value of a string of decimal digits. */
  function DigitsValue(s: string): nat
    requires forall i :: 0 <= i < |s| ==> IsDigit(s[i])
  {
    if s == [] then 0
    else
      assert IsDigit(s[|s| - 1]);
      DigitsValue(s[..|s| - 1]) * 10 + (s[|s| - 1] as int - '0' as int)
  }

  /** `Number(text)` on a text without spaces: empty gives 0, decimal digits give their value,
      anything else is NaN (signs, fractions, exponents, hexadecimal and "Infinity" are not
      modelled and counted as NaN). */
  function ParseNumber(s: string): NumberValue {
    if forall i :: 0 <= i < |s| ==> IsDigit(s[i]) then Num(DigitsValue(s)) else NaN
  }

  /** Decimal digits of `n`, without leading zeros. */
  function DecimalString(n: nat): (s: string)
    ensures |s| > 0 && forall i :: 0 <= i < |s| ==> IsDigit(s[i])
    ensures ' ' !in s
  {
    var d := ['0' + (n % 10) as char];
    if n < 10 then d else DecimalString(n / 10) + d
  }

  lemma {:induction false} DecimalStringValue(n: nat)
    ensures DigitsValue(DecimalString(n)) == n
  {
    var s := DecimalString(n);
    if n >= 10 {
      DecimalStringValue(n / 10);
      assert s[..|s| - 1] == DecimalString(n / 10);
    }
  }

  lemma {:induction false} FirstWordOfWordAndRest(w: string, rest: string)
    requires ' ' !in w
    ensures FirstWord(w + " " + rest) == w
  {
    if w != [] {
      assert (w + " " + rest)[1..] == w[1..] + " " + rest;
      FirstWordOfWordAndRest(w[1..], rest);
    } else {
      assert (w + " " + rest)[0] == ' ';
    }
  }

  /** `Number(runtime.split(" ").at(0))`: "148 min" gives 148, and in general a runtime written
      as a number followed by a space reads back as that number. */
  function ParseRuntime(runtime: string): (r: NumberValue)
    // A number exactly when the first word is all digits.
    ensures r.Num? <==> forall i :: 0 <= i < |FirstWord(runtime)| ==> IsDigit(FirstWord(runtime)[i])
    // An empty first word (an empty runtime, or one starting with a space) reads as 0.
    ensures FirstWord(runtime) == "" ==> r == Num(0)
    // The service's "N/A" reads as NaN.
    ensures runtime == "N/A" ==> r == NaN
  {
    assert runtime == "N/A" ==> FirstWord(runtime) == "N/A" && !IsDigit(FirstWord(runtime)[0]);
    ParseNumber(FirstWord(runtime))
  }

  lemma RuntimeRoundTrip(n: nat, unit: string)
    ensures ParseRuntime(DecimalString(n) + " " + unit) == Num(n)
  {
    FirstWordOfWordAndRest(DecimalString(n), unit);
    DecimalStringValue(n);
  }

  lemma RuntimeExample()
    ensures ParseRuntime("148 min") == Num(148)
  {
    assert DecimalString(148) == "148";
    assert "148 min" == DecimalString(148) + " " + "min";
    RuntimeRoundTrip(148, "min");
  }

  /** `newWatchedMovie` in `handleAdd`. */
  function NewWatchedMovie(selectedId: string, details: Details, userRating: int): (m: WatchedMovie)
    ensures m.imdbID == selectedId && m.userRating == userRating
    ensures m.title == details.title && m.year == details.year && m.poster == details.poster
    ensures m.imdbRating == details.imdbRating
    ensures m.runtime == ParseRuntime(details.runtime)
  {
    WatchedMovie(selectedId, details.title, details.year, details.poster, details.imdbRating,
                 ParseRuntime(details.runtime), userRating)
  }

  /** The callbacks a details panel invokes, in order. */
  datatype Callback = AddWatched(movie: WatchedMovie) | CloseMovie

  /** `handleAdd`: `onAddWatched(newWatchedMovie)` and then `onCloseMovie()`. */
  function HandleAdd(selectedId: string, details: Details, userRating: int): (calls: seq<Callback>)
    ensures |calls| == 2 && calls[0].AddWatched? && calls[1].CloseMovie?
    ensures calls[0].movie == NewWatchedMovie(selectedId, details, userRating)
    ensures calls[0].movie.imdbID == selectedId && calls[0].movie.userRating == userRating
  {
    [AddWatched(NewWatchedMovie(selectedId, details, userRating)), CloseMovie]
  }

  /** The "Add to watched" button is shown for a movie not yet watched once rated above 0. */
  function ShowsAddButton(watched: seq<WatchedMovie>, selectedId: string, userRating: int): (b: bool)
    ensures b ==> WatchedUserRating(watched, selectedId).None? && userRating > 0
    ensures !b ==> IsWatched(watched, selectedId) || userRating <= 0
  {
    !IsWatched(watched, selectedId) && userRating > 0
  }

  /** The poster shown: the placeholder replaces "N/A". */
  function PosterSource(poster: string): (src: string)
    ensures poster == "N/A" ==> src == PlaceholderPoster
    ensures poster != "N/A" ==> src == poster
  {
    if poster != "N/A" then poster else PlaceholderPoster
  }
}
