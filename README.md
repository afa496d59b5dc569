# MovieLens catalog: import and rating statistics, modelled in Dafny

This project models the two parts of the MovieLens catalog API that hold
logic of their own.

- **The `import_data` management command.** It reads movies.csv, links.csv,
  ratings.csv and tags.csv and bulk-inserts genres, movies, movie/genre
  join rows, links, ratings and tags. It splits each movie's `genres` field
  on `|` and collects the distinct genre names. It builds a movieId → genre
  names dict, then turns that into join rows, using the genre table it reads
  back from the database. It stores an empty `tmdbId` as NULL. It buffers
  ratings and writes them every 10000 rows. At the end it writes what is
  left in the buffer, but only when the buffer is not empty.
- **The two Celery tasks, `calculate_movie_stats` and `process_bulk_ratings`.**
  Each selects the ratings of one movie (or one user), counts them and reports
  the mean score. When there are none, it returns a result that holds
  only the id and "No ratings found".

The import command works step by step, so its loops over movies, genres,
links and ratings become Dafny methods with loops and invariants. The tag loop
only copies already-parsed rows, so `Handle` passes the tags through without
a loop of its own. Most methods are proved against a function that states
what the phase produces. `GenresToCreate`, `ExtractGenres` and `BuildLinks`
instead state their results directly, with quantified ensures. The tasks are pure and become functions.
The database is not modelled. CSV rows arrive already parsed. Each
`bulk_create` becomes a sequence that a method returns. The genre table read
back after the genre insert (`genre_lookup`) is an input map from name to id,
because the database assigns the ids.

Files and modules:

- `records.dfy` (`Records`): the record shapes of movies/models.py and of the parsed CSV rows.
- `pieces.dfy` (`Pieces`): Python's `str.split` on one character, its inverse `Join`, the `if g` filter, and genre names.
- `pydict.dfy` (`PyDict`): a Python dict with insertion-ordered iteration. A repeated key keeps its position and gets the new value.
- `batching.dfy` (`Batching`): cutting a sequence into fixed-size batches, and the proof that there is only one way to do it.
- `import_data.dfy` (`ImportData`): the command, phase by phase, and `Handle` for the whole run.
- `tasks.dfy` (`Tasks`): the two aggregate tasks.

## Model

| member | source | states |
|---|---|---|
| Pieces.Split | movies/management/commands/import_data.py:17 | `split('|')` yields one piece more than there are separators, and no piece contains the separator |
| Pieces.JoinSplit | movies/management/commands/import_data.py:17 | joining the pieces back with the separator gives the original field |
| Pieces.SplitJoin | movies/management/commands/import_data.py:17 | splitting a join of separator-free pieces gives back exactly those pieces |
| Pieces.NonEmpty | movies/management/commands/import_data.py:20 | the `if g` filter keeps every non-empty piece as often as it occurs, drops every empty one, and never adds any |
| Pieces.NonEmptyAppend | movies/management/commands/import_data.py:38 | filtering a concatenation concatenates the filtered parts, so the kept pieces keep their order |
| Pieces.GenreNames | movies/management/commands/import_data.py:38 | a movie's genre names are the non-empty `|`-pieces of its field, each as often as it occurs there, and none contains `|` |
| Pieces.GenreNamesOfPieces | movies/management/commands/import_data.py:38 | a field made of `|`-free pieces joined by `|` yields its non-empty pieces in their order; with `JoinSplit` this covers every field |
| Pieces.GenreNamesOfJoin | movies/management/commands/import_data.py:38 | a field written as non-empty names joined by `|` yields those names, in the same order |
| Pieces.GenreNamesOrdinary | movies/management/commands/import_data.py:38 | "Adventure|Comedy" yields ["Adventure", "Comedy"] |
| Pieces.GenreNamesEmpty | movies/management/commands/import_data.py:38 | an empty field yields no genre names |
| Pieces.GenreNamesStray | movies/management/commands/import_data.py:38 | "|Drama|" yields ["Drama"]: the empty pieces are dropped |
| PyDict.Empty | movies/management/commands/import_data.py:30 | `{}` is a valid dict with no keys and no values |
| PyDict.Put | movies/management/commands/import_data.py:39 | dict assignment keeps keys unique and in step with the stored values; an existing key keeps its position, a new key goes last |
| Batching.Chunks | movies/management/commands/import_data.py:81-94 | the reference batching: read in order, the batches give the input; each holds 1 to n rows; all but the last hold exactly n |
| Batching.ChunkingUnique | movies/management/commands/import_data.py:81-94 | any batching with those properties equals the reference batching |
| Batching.LastBatch | movies/management/commands/import_data.py:93-94 | full batches plus a shorter remainder, written only when non-empty, are a valid batching |
| ImportData.GenreSetOf | movies/management/commands/import_data.py:12-18 | the reference definition of `genres_set`: the union of the `|`-pieces of every row's field; `GenreSetOfMembership` characterises it |
| ImportData.GenreSetOfMembership | movies/management/commands/import_data.py:12-18 | a name is in `genres_set` exactly when it is a `|`-piece of some row's genres field |
| ImportData.CollectGenreSet | movies/management/commands/import_data.py:12-18 | the set-update loop computes `genres_set` |
| ImportData.GenresToCreate | movies/management/commands/import_data.py:20 | the genres created are exactly the non-empty names in the set, with no duplicates, whatever the set's iteration order |
| ImportData.ExtractGenres | movies/management/commands/import_data.py:12-20 | every genre created is a non-empty `|`-piece of some row's field, every such piece is created, and none is created twice |
| ImportData.GenreMapOf | movies/management/commands/import_data.py:30-39 | the reference definition of `movie_genres_map`: one dict assignment per row, in row order; the result is always a valid dict, and `Put` fixes its key order as the order in which movie ids first appear |
| ImportData.GenreMapKeys | movies/management/commands/import_data.py:30-39 | `movie_genres_map` has exactly the movie ids of the rows as keys |
| ImportData.GenreMapLast | movies/management/commands/import_data.py:38-39 | a movie's stored names come from the last row with its id: that row's field split on `|`, empties removed, order kept |
| ImportData.MovieIdsLast | movies/management/commands/import_data.py:32-33 | one more row adds its movie id to the set of movie ids read |
| ImportData.GenreMapOfStep | movies/management/commands/import_data.py:38-39 | reading one more row assigns that row's genre names to its movie id |
| ImportData.MoviesOf | movies/management/commands/import_data.py:29-37 | `movies_to_create` has one movie per row, in row order, with the row's id and title |
| ImportData.BuildMovies | movies/management/commands/import_data.py:27-39 | the movie loop produces `movies_to_create` and `movie_genres_map` as specified |
| ImportData.MovieLinks | movies/management/commands/import_data.py:49-54 | the reference definition of one movie's join rows: one per name the lookup knows, in name order; `MovieLinksExact` and `MovieLinksPerGenre` characterise it |
| ImportData.Relationships | movies/management/commands/import_data.py:48-54 | the reference definition of `relationships`: each movie's join rows, movies in dict order; `RelationshipsMembership` fixes which rows occur and `RelationshipsPerGenre` how often each occurs |
| ImportData.MovieLinksExact | movies/management/commands/import_data.py:49-54 | a movie gets as many join rows as it has names that `genre_lookup` knows, and a row for a genre id exactly when one of those names maps to it; unknown names are skipped |
| ImportData.GenrePositionsLast | movies/management/commands/import_data.py:50-54 | one more name adds its position to those mapping to a genre id exactly when it maps to that id |
| ImportData.MovieLinksPerGenre | movies/management/commands/import_data.py:49-54 | a movie gets one row for a genre id per name that maps to that id, so a repeated name gives a repeated row |
| ImportData.MovieLinksAllKnown | movies/management/commands/import_data.py:49-54 | when every name is known, a movie gets as many join rows as it has names |
| ImportData.MovieLinksOwner | movies/management/commands/import_data.py:51-54 | every join row built for a movie carries that movie's id |
| ImportData.RelationshipsMembership | movies/management/commands/import_data.py:48-54 | a join row is produced exactly when its movie is a key of the map and the row is one of that movie's links |
| ImportData.RelationshipsPerGenre | movies/management/commands/import_data.py:48-54 | with distinct movie keys, the whole list holds a (movie, genre id) row once per name of that movie mapping to that id, and none for a movie that is not a key |
| ImportData.GenreMapNamesCollected | movies/management/commands/import_data.py:17-39 | every name stored in the map is non-empty and in `genres_set`, so a genre was created for it |
| ImportData.RelationshipsAllKnown | movies/management/commands/import_data.py:48-54 | when the lookup knows every stored name, there is one join row per (movie, name) entry |
| ImportData.NoNameSkipped | movies/management/commands/import_data.py:20-54 | when the genre table holds every created name, no entry of the map is skipped |
| ImportData.BuildRelationships | movies/management/commands/import_data.py:46-54 | the nested loop produces the join rows movie by movie in dict order, name by name |
| ImportData.TmdbId | movies/management/commands/import_data.py:66 | an empty `tmdbId` becomes None, and a non-empty one is kept verbatim |
| ImportData.TmdbRoundTrip | movies/management/commands/import_data.py:66 | the CSV field can be recovered from the stored value, and every stored value other than an empty string can be produced |
| ImportData.BuildLinks | movies/management/commands/import_data.py:62-72 | one link per row, in row order, with `tmdb_id` normalised |
| ImportData.ImportRatings | movies/management/commands/import_data.py:77-95 | loop invariant: the buffer length equals `count % 10000`. The batches written, in order, are exactly the rows read, each once. Every batch but the last holds 10000 rows and the last is not empty. `count` ends as the number of rows |
| ImportData.Handle | movies/management/commands/import_data.py:9-112 | the whole command writes genres, movies, join rows, links, rating batches and tags as each phase specifies. When the genre table holds every created name, there is one join row per map entry |
| Tasks.Matches | movies/tasks.py:15 | the filter condition: the rating's movie id (or, for `process_bulk_ratings`, user id at line 40) equals the requested one |
| Tasks.Selected | movies/tasks.py:15 | the selected ratings are the matching ones, each as often as it occurs among all ratings |
| Tasks.NoneSelected | movies/tasks.py:16-18 | nothing is selected exactly when no rating matches |
| Tasks.SelectedAppend | movies/tasks.py:15 | a rating appended at the end is selected exactly when it matches |
| Tasks.PositionsAppend | movies/tasks.py:15 | a rating appended at the end adds its position to the matching positions exactly when it matches |
| Tasks.SumScores | movies/tasks.py:19 | the reference definition of `sum(r.rating for r in ratings)`; `SumBounds` bounds it |
| Tasks.SelectedCount | movies/tasks.py:16 | the count is the number of positions holding a matching rating |
| Tasks.Aggregate | movies/tasks.py:15-28 | the result always echoes the subject. No total and no average, only "No ratings found", iff nothing matches. Otherwise the total is the match count and the average is the sum of matching scores over that count |
| Tasks.CalculateMovieStats | movies/tasks.py:8-28 | echoes `movie_id`; gives neither a total nor an average iff no rating has that movie id; otherwise gives the count and mean of that movie's ratings and the success message |
| Tasks.ProcessBulkRatings | movies/tasks.py:33-52 | echoes `user_id`; gives neither a total nor an average iff no rating has that user id; otherwise gives the count and mean of that user's ratings and the completion message |
| Tasks.MinScore | movies/tasks.py:19-20 | the smallest score of a non-empty collection: a lower bound of every score, and attained |
| Tasks.MaxScore | movies/tasks.py:19-20 | the largest score of a non-empty collection: an upper bound of every score, and attained |
| Tasks.SumBounds | movies/tasks.py:19 | scores between lo and hi sum to between n·lo and n·hi |
| Tasks.MeanBetween | movies/tasks.py:19-20 | scores between lo and hi have a mean between lo and hi |
| Tasks.MeanWithinScores | movies/tasks.py:19-20 | a non-empty collection's mean lies between its smallest and largest score |
| Tasks.AverageWithinScores | movies/tasks.py:19-24 | the unrounded reported average lies between the smallest and largest matching score |
| Tasks.NoRatingsExample | movies/tasks.py:28 | a movie with no ratings gets only its id and "No ratings found" |
| Tasks.MovieStatsExample | movies/tasks.py:15-26 | scores 3.0, 4.0 and 5.0 for one movie give a count of 3 and a mean of 4.0 |
| Tasks.UserStatsExample | movies/tasks.py:40-50 | a user with scores 3.0 and 1.0 gets a count of 2 and a mean of 2.0 |

## Left out

- Reading the CSV files, `csv.DictReader`, and the `int()`/`float()` parsing of fields. Rows arrive already parsed as records. A malformed field would raise in the command, and this model does not represent that.
- The database. `bulk_create`'s `batch_size=1000` sub-batching, `ignore_conflicts`, primary-key and uniqueness enforcement, and the ids the database assigns are all left out. The genre table read back after the insert is an input. A movie id that repeats in movies.csv makes two `Movie` objects here. A genre that repeats within one field ("Drama|Drama") likewise makes two identical join rows (`MovieLinksPerGenre`). The database's unique keys would make `bulk_create` raise `IntegrityError` on either input, and the command would stop there. That failure is not modelled.
- Set iteration order. Python does not fix the order in which `genres_set` is iterated, so `GenresToCreate` picks elements in an arbitrary order. Only the set of genres created and the absence of duplicates are specified.
- The progress and success messages written to stdout.
- Tags: the rows arrive already parsed, so the tag loop copies them unchanged, and `Handle` returns them as they are.
- Both tasks query the ratings twice: `ratings.count()` (movies/tasks.py:16 and :41) and the iteration inside `sum(...)` (lines 19 and 44). The model reads one snapshot `rs` for both, so a change to the table between the two queries is not modelled.
- `round(avg, 2)` and float arithmetic. Scores and means are exact reals, and the average is stated before rounding.
- `sleep` in the tasks, Celery dispatch and scheduling (movies_api/celery.py), and the Celery result backend.
- movies/views.py, movies/serializers.py, movies/admin.py and movies/urls.py. These are request handlers, DRF serializers and routing whose behaviour comes from Django's ORM, not from this code. test_cache.py is a script against a live Redis cache. None of these is part of this model.
