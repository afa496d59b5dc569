/** Record shapes of the catalog (the Django models) and of the already-parsed
    CSV rows the import command reads. */
module Records {

  datatype Option<+T> = None | Some(value: T)

  /** A row of movies.csv: `movieId,title,genres`, genres being `|`-separated. */
  datatype MovieRow = MovieRow(movieId: int, title: string, genres: string)

  /** A row of links.csv; `tmdbId` may be the empty string. */
  datatype LinkRow = LinkRow(movieId: int, imdbId: string, tmdbId: string)

  /** A genre as created by the import; its id is assigned by the database. */
  datatype Genre = Genre(name: string)

  /** A movie as created by the import (its genres live in the join table). */
  datatype Movie = Movie(movieId: int, title: string)

  /** One row of the movie/genre join table. */
  datatype MovieGenre = MovieGenre(movieId: int, genreId: int)

  /** A rating; the score is a real number here, a float in the database. */
  datatype Rating = Rating(userId: int, movieId: int, score: real, timestamp: int)

  datatype Tag = Tag(userId: int, movieId: int, tag: string, timestamp: int)

  /** External identifiers of a movie; `tmdbId` is nullable. */
  datatype Link = Link(movieId: int, imdbId: string, tmdbId: Option<string>)
}
