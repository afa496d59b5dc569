/** The `import_data` management command (movies/management/commands/import_data.py)
    with its CSV reading and database writes taken out: rows arrive already
    parsed, and every `bulk_create` becomes a sequence the methods return.
    The movie, genre, link and rating phases are methods with the loops the
    command runs; most are proved against a function that says what the
    phase produces, while `GenresToCreate`, `ExtractGenres` and `BuildLinks`
    state their results directly. The tag rows are only copied, in `Handle`. */
module ImportData {
  import opened Records
  import opened Pieces
  import opened PyDict
  import opened Batching

  /** Rating rows are handed to the database every this many rows. */
  const RatingFlushEvery: nat := 10000

  // ---------------------------------------------------------------------
  // Genres

  /** The pieces in a sequence of pieces, as a set. */
  function PieceSet(ps: seq<string>): set<string>
  {
    set p | p in ps
  }

  /** `genres_set` after reading `rows`: every `|`-separated piece of every
      row's genres field, empty pieces included. */
  function GenreSetOf(rows: seq<MovieRow>): set<string>
  {
    if rows == [] then {}
    else GenreSetOf(rows[..|rows| - 1]) + PieceSet(Split(rows[|rows| - 1].genres, Bar))
  }

  /** A name is in the set exactly when it is a piece of some row's field. */
  lemma {:induction false} GenreSetOfMembership(rows: seq<MovieRow>, g: string)
    ensures g in GenreSetOf(rows) <==> exists k :: 0 <= k < |rows| && g in Split(rows[k].genres, Bar)
  {
    if rows != [] {
      var init := rows[..|rows| - 1];
      GenreSetOfMembership(init, g);
      if g in GenreSetOf(rows) {
        if g !in GenreSetOf(init) {
          assert g in Split(rows[|rows| - 1].genres, Bar);
        } else {
          var k :| 0 <= k < |init| && g in Split(init[k].genres, Bar);
          assert rows[k] == init[k];
        }
      } else {
        forall k | 0 <= k < |rows| ensures g !in Split(rows[k].genres, Bar) {
          if k < |init| { assert rows[k] == init[k]; }
        }
      }
    }
  }

  /** The first loop: `genres_set.update(row['genres'].split('|'))` for each row. */
  method CollectGenreSet(rows: seq<MovieRow>) returns (genresSet: set<string>)
    ensures genresSet == GenreSetOf(rows)
  {
    genresSet := {};
    for i := 0 to |rows|
      invariant genresSet == GenreSetOf(rows[..i])
    {
      assert rows[..i + 1][..i] == rows[..i];
      genresSet := genresSet + PieceSet(Split(rows[i].genres, Bar));
    }
    assert rows[..|rows|] == rows;
  }

  /** `[Genre(name=g) for g in genres_set if g]`. A set is iterated in an
      order the program does not control, so the next element is chosen
      arbitrarily. */
  method GenresToCreate(genresSet: set<string>) returns (genres: seq<Genre>)
    ensures forall g :: Genre(g) in genres <==> g in genresSet && g != []
    ensures forall i, j :: 0 <= i < j < |genres| ==> genres[i] != genres[j]
  {
    genres := [];
    var rest := genresSet;
    while rest != {}
      invariant rest <= genresSet
      invariant forall g :: Genre(g) in genres <==> g in genresSet - rest && g != []
      invariant forall i, j :: 0 <= i < j < |genres| ==> genres[i] != genres[j]
      decreases rest
    {
      var g :| g in rest;
      if g != [] {
        genres := genres + [Genre(g)];
      }
      rest := rest - {g};
    }
  }

  /** Genre extraction as a whole: every genre created is a non-empty piece
      of some row's genres field, every such piece is created, and none is
      created twice. */
  method ExtractGenres(rows: seq<MovieRow>) returns (genres: seq<Genre>)
    ensures forall g :: Genre(g) in genres <==>
      g != [] && exists k :: 0 <= k < |rows| && g in Split(rows[k].genres, Bar)
    ensures forall i, j :: 0 <= i < j < |genres| ==> genres[i] != genres[j]
  {
    var genresSet := CollectGenreSet(rows);
    genres := GenresToCreate(genresSet);
    forall g ensures g in genresSet <==> exists k :: 0 <= k < |rows| && g in Split(rows[k].genres, Bar) {
      GenreSetOfMembership(rows, g);
    }
  }

  // ---------------------------------------------------------------------
  // Movies and the movie -> genre names map

  /** `movie_genres_map` after reading `rows`: each row assigns its movie id
      the row's genre names, so a later row with the same id overwrites the
      value of an earlier one and keeps its position. */
  function GenreMapOf(rows: seq<MovieRow>): (d: Dict<int, seq<string>>)
    ensures Valid(d)
  {
    if rows == [] then Empty()
    else
      var last := rows[|rows| - 1];
      Put(GenreMapOf(rows[..|rows| - 1]), last.movieId, GenreNames(last.genres))
  }

  /** The movie ids of the rows. */
  function MovieIds(rows: seq<MovieRow>): set<int>
  {
    set k | 0 <= k < |rows| :: rows[k].movieId
  }

  /** The map holds exactly the movie ids of the rows. */
  lemma {:induction false} GenreMapKeys(rows: seq<MovieRow>)
    ensures GenreMapOf(rows).values.Keys == MovieIds(rows)
  {
    if rows != [] {
      var init, last := rows[..|rows| - 1], rows[|rows| - 1];
      GenreMapKeys(init);
      assert GenreMapOf(rows).values.Keys == GenreMapOf(init).values.Keys + {last.movieId};
      MovieIdsLast(rows);
    }
  }

  lemma MovieIdsLast(rows: seq<MovieRow>)
    requires rows != []
    ensures MovieIds(rows) == MovieIds(rows[..|rows| - 1]) + {rows[|rows| - 1].movieId}
  {
  }

  /** The names stored for a movie are those of the last row with its id:
      that row's genres field split on `|`, empty pieces removed, original
      order kept. */
  lemma {:induction false} GenreMapLast(rows: seq<MovieRow>, k: nat)
    requires k < |rows|
    requires forall j :: k < j < |rows| ==> rows[j].movieId != rows[k].movieId
    ensures rows[k].movieId in GenreMapOf(rows).values
    ensures GenreMapOf(rows).values[rows[k].movieId] == GenreNames(rows[k].genres)
  {
    if k < |rows| - 1 {
      var init := rows[..|rows| - 1];
      assert init[k] == rows[k];
      GenreMapLast(init, k);
    }
  }

  /** Reading one more row puts its genre names under its movie id. */
  lemma GenreMapOfStep(rows: seq<MovieRow>, i: nat)
    requires i < |rows|
    ensures GenreMapOf(rows[..i + 1]) == Put(GenreMapOf(rows[..i]), rows[i].movieId, GenreNames(rows[i].genres))
  {
    assert rows[..i + 1][..i] == rows[..i];
  }

  /** `movies_to_create` after reading `rows`: one movie per row, in row order. */
  function MoviesOf(rows: seq<MovieRow>): (ms: seq<Movie>)
    ensures |ms| == |rows|
    ensures forall i :: 0 <= i < |rows| ==> ms[i] == Movie(rows[i].movieId, rows[i].title)
  {
    if rows == [] then []
    else
      var init := rows[..|rows| - 1];
      assert forall i :: 0 <= i < |init| ==> init[i] == rows[i];
      MoviesOf(init) + [Movie(rows[|rows| - 1].movieId, rows[|rows| - 1].title)]
  }

  /** The second loop: one movie per row, in row order, and the genre map. */
  method BuildMovies(rows: seq<MovieRow>) returns (movies: seq<Movie>, genreMap: Dict<int, seq<string>>)
    ensures movies == MoviesOf(rows)
    ensures genreMap == GenreMapOf(rows)
  {
    movies := [];
    genreMap := Empty();
    for i := 0 to |rows|
      invariant movies == MoviesOf(rows[..i])
      invariant genreMap == GenreMapOf(rows[..i])
    {
      assert rows[..i + 1][..i] == rows[..i];
      movies := movies + [Movie(rows[i].movieId, rows[i].title)];
      genreMap := Put(genreMap, rows[i].movieId, GenreNames(rows[i].genres));
    }
    assert rows[..|rows|] == rows;
  }

  // ---------------------------------------------------------------------
  // Movie/genre relationships

  /** The join-table rows for one movie: one per name, in order, for the
      names the genre lookup knows; other names are skipped. */
  function MovieLinks(movieId: int, names: seq<string>, lookup: map<string, int>): seq<MovieGenre>
  {
    if names == [] then []
    else
      var n := names[|names| - 1];
      MovieLinks(movieId, names[..|names| - 1], lookup)
        + (if n in lookup then [MovieGenre(movieId, lookup[n])] else [])
  }

  /** The join-table rows for every movie, movies in dict order. */
  function Relationships(keys: seq<int>, values: map<int, seq<string>>, lookup: map<string, int>): seq<MovieGenre>
    requires forall i :: 0 <= i < |keys| ==> keys[i] in values
  {
    if keys == [] then []
    else
      var m := keys[|keys| - 1];
      Relationships(keys[..|keys| - 1], values, lookup) + MovieLinks(m, values[m], lookup)
  }

  /** The positions of the names the lookup knows. */
  function KnownPositions(names: seq<string>, lookup: map<string, int>): set<int>
  {
    set j | 0 <= j < |names| && names[j] in lookup
  }

  /** A movie gets exactly one relationship per known name: as many rows as
      known positions, and a row for genre id `gid` exactly when some known
      name maps to `gid`. */
  lemma {:induction false} MovieLinksExact(movieId: int, names: seq<string>, lookup: map<string, int>, x: MovieGenre)
    ensures |MovieLinks(movieId, names, lookup)| == |KnownPositions(names, lookup)|
    ensures x in MovieLinks(movieId, names, lookup) <==>
      x.movieId == movieId && exists j :: 0 <= j < |names| && names[j] in lookup && lookup[names[j]] == x.genreId
  {
    if names != [] {
      var init := names[..|names| - 1];
      var n := names[|names| - 1];
      MovieLinksExact(movieId, init, lookup, x);
      var before := KnownPositions(init, lookup);
      assert forall j :: 0 <= j < |init| ==> init[j] == names[j];
      if n in lookup {
        assert KnownPositions(names, lookup) == before + {|names| - 1};
      } else {
        assert KnownPositions(names, lookup) == before;
      }
      if x in MovieLinks(movieId, names, lookup) && x !in MovieLinks(movieId, init, lookup) {
        assert names[|names| - 1] in lookup && lookup[names[|names| - 1]] == x.genreId;
      }
      if x.movieId == movieId && x !in MovieLinks(movieId, init, lookup) {
        forall j | 0 <= j < |names| && names[j] in lookup && lookup[names[j]] == x.genreId
          ensures x in MovieLinks(movieId, names, lookup)
        {
          assert j == |names| - 1;
        }
      }
    }
  }

  /** The positions of the names the lookup maps to genre id `gid`. */
  function GenrePositions(names: seq<string>, lookup: map<string, int>, gid: int): set<int>
  {
    set j | 0 <= j < |names| && names[j] in lookup && lookup[names[j]] == gid
  }

  /** One more name adds its position exactly when it maps to `gid`. */
  lemma GenrePositionsLast(names: seq<string>, lookup: map<string, int>, gid: int)
    requires names != []
    ensures GenrePositions(names, lookup, gid) ==
      GenrePositions(names[..|names| - 1], lookup, gid)
        + (if names[|names| - 1] in lookup && lookup[names[|names| - 1]] == gid then {|names| - 1} else {})
  {
  }

  /** A movie gets one row for genre id `gid` per name that maps to `gid`:
      a name that repeats in the field gives a repeated row. */
  lemma {:induction false} MovieLinksPerGenre(movieId: int, names: seq<string>, lookup: map<string, int>, gid: int)
    ensures multiset(MovieLinks(movieId, names, lookup))[MovieGenre(movieId, gid)] == |GenrePositions(names, lookup, gid)|
  {
    if names != [] {
      var init := names[..|names| - 1];
      MovieLinksPerGenre(movieId, init, lookup, gid);
      GenrePositionsLast(names, lookup, gid);
      assert |names| - 1 !in GenrePositions(init, lookup, gid);
    }
  }

  /** When the lookup knows every name, nothing is skipped. */
  lemma {:induction false} MovieLinksAllKnown(movieId: int, names: seq<string>, lookup: map<string, int>)
    requires forall j :: 0 <= j < |names| ==> names[j] in lookup
    ensures |MovieLinks(movieId, names, lookup)| == |names|
  {
    if names != [] {
      MovieLinksAllKnown(movieId, names[..|names| - 1], lookup);
    }
  }

  /** Every link built for a movie carries that movie's id. */
  lemma {:induction false} MovieLinksOwner(movieId: int, names: seq<string>, lookup: map<string, int>, x: MovieGenre)
    requires x in MovieLinks(movieId, names, lookup)
    ensures x.movieId == movieId
  {
    var init := names[..|names| - 1];
    if x in MovieLinks(movieId, init, lookup) {
      MovieLinksOwner(movieId, init, lookup, x);
    }
  }

  /** A relationship is produced exactly when its movie is one of the keys
      and it is one of that movie's links: nothing is produced for a movie
      outside the map. */
  lemma {:induction false} RelationshipsMembership(keys: seq<int>, values: map<int, seq<string>>,
                                                   lookup: map<string, int>, x: MovieGenre)
    requires forall i :: 0 <= i < |keys| ==> keys[i] in values
    ensures x in Relationships(keys, values, lookup) <==>
      x.movieId in keys && x.movieId in values && x in MovieLinks(x.movieId, values[x.movieId], lookup)
  {
    if keys != [] {
      var init, m := keys[..|keys| - 1], keys[|keys| - 1];
      RelationshipsMembership(init, values, lookup, x);
      assert keys == init + [m];
      if x in MovieLinks(m, values[m], lookup) {
        MovieLinksOwner(m, values[m], lookup, x);
      }
    }
  }

  /** Every name stored in the genre map is a non-empty piece collected in
      the genre set, so it is among the genres created. */
  lemma {:induction false} GenreMapNamesCollected(rows: seq<MovieRow>, id: int, j: nat)
    requires id in GenreMapOf(rows).values && j < |GenreMapOf(rows).values[id]|
    ensures GenreMapOf(rows).values[id][j] != []
    ensures GenreMapOf(rows).values[id][j] in GenreSetOf(rows)
  {
    var init, last := rows[..|rows| - 1], rows[|rows| - 1];
    var names := GenreMapOf(rows).values[id];
    if id == last.movieId {
      assert names == GenreNames(last.genres);
      assert names[j] in names;
    } else {
      GenreMapNamesCollected(init, id, j);
    }
  }

  /** How many names the map holds over the given keys. */
  function NameCount(keys: seq<int>, values: map<int, seq<string>>): nat
    requires forall i :: 0 <= i < |keys| ==> keys[i] in values
  {
    if keys == [] then 0
    else NameCount(keys[..|keys| - 1], values) + |values[keys[|keys| - 1]]|
  }

  /** Over the whole list, a (movie, genre id) row occurs once per name of
      that movie mapping to that genre id, and not at all for a movie that
      is not a key. */
  lemma {:induction false} RelationshipsPerGenre(keys: seq<int>, values: map<int, seq<string>>,
                                                 lookup: map<string, int>, m: int, gid: int)
    requires forall i :: 0 <= i < |keys| ==> keys[i] in values
    requires forall i, j :: 0 <= i < j < |keys| ==> keys[i] != keys[j]
    ensures multiset(Relationships(keys, values, lookup))[MovieGenre(m, gid)] ==
      if m in keys then |GenrePositions(values[m], lookup, gid)| else 0
  {
    if keys != [] {
      var init, last := keys[..|keys| - 1], keys[|keys| - 1];
      assert keys == init + [last];
      RelationshipsPerGenre(init, values, lookup, m, gid);
      if last == m {
        assert m !in init;
        MovieLinksPerGenre(m, values[m], lookup, gid);
      } else if MovieGenre(m, gid) in MovieLinks(last, values[last], lookup) {
        MovieLinksOwner(last, values[last], lookup, MovieGenre(m, gid));
      }
    }
  }

  /** When the lookup knows every stored name, there is one relationship per
      (movie, name) entry of the map. */
  lemma {:induction false} RelationshipsAllKnown(keys: seq<int>, values: map<int, seq<string>>, lookup: map<string, int>)
    requires forall i :: 0 <= i < |keys| ==> keys[i] in values
    requires forall i, j :: 0 <= i < |keys| && 0 <= j < |values[keys[i]]| ==> values[keys[i]][j] in lookup
    ensures |Relationships(keys, values, lookup)| == NameCount(keys, values)
  {
    if keys != [] {
      var init, m := keys[..|keys| - 1], keys[|keys| - 1];
      assert forall i :: 0 <= i < |init| ==> init[i] == keys[i];
      RelationshipsAllKnown(init, values, lookup);
      MovieLinksAllKnown(m, values[m], lookup);
    }
  }

  /** When the genre lookup knows every non-empty piece of the genres
      fields, every (movie, name) entry of the genre map gets its
      relationship. */
  lemma NoNameSkipped(rows: seq<MovieRow>, lookup: map<string, int>)
    requires forall g :: g != [] && g in GenreSetOf(rows) ==> g in lookup
    ensures |Relationships(GenreMapOf(rows).keys, GenreMapOf(rows).values, lookup)|
      == NameCount(GenreMapOf(rows).keys, GenreMapOf(rows).values)
  {
    var keys, values := GenreMapOf(rows).keys, GenreMapOf(rows).values;
    forall i, j | 0 <= i < |keys| && 0 <= j < |values[keys[i]]|
      ensures values[keys[i]][j] in lookup
    {
      GenreMapNamesCollected(rows, keys[i], j);
    }
    RelationshipsAllKnown(keys, values, lookup);
  }

  /** The third loop: for each (movie, names) in dict order, for each name,
      a relationship when the lookup knows the name. */
  method BuildRelationships(genreMap: Dict<int, seq<string>>, lookup: map<string, int>) returns (rels: seq<MovieGenre>)
    requires Valid(genreMap)
    ensures rels == Relationships(genreMap.keys, genreMap.values, lookup)
  {
    var keys, values := genreMap.keys, genreMap.values;
    rels := [];
    for i := 0 to |keys|
      invariant rels == Relationships(keys[..i], values, lookup)
    {
      assert keys[..i + 1][..i] == keys[..i];
      var movieId := keys[i];
      var names := values[movieId];
      ghost var before := rels;
      for j := 0 to |names|
        invariant rels == before + MovieLinks(movieId, names[..j], lookup)
      {
        assert names[..j + 1][..j] == names[..j];
        if names[j] in lookup {
          rels := rels + [MovieGenre(movieId, lookup[names[j]])];
        }
      }
      assert names[..|names|] == names;
    }
    assert keys[..|keys|] == keys;
  }

  // ---------------------------------------------------------------------
  // Links

  /** `row['tmdbId'] if row['tmdbId'] else None` */
  function TmdbId(field: string): (r: Option<string>)
    ensures r == None <==> field == []
    ensures r.Some? ==> r.value == field
  {
    if field != [] then Some(field) else None
  }

  /** How a stored `tmdb_id` reads back as a CSV field: None as the empty field. */
  function TmdbField(id: Option<string>): string
  {
    match id
    case None => []
    case Some(s) => s
  }

  /** Normalising loses nothing: the field can be recovered, and every stored
      value except an empty string can be produced. */
  lemma TmdbRoundTrip(field: string, id: Option<string>)
    ensures TmdbField(TmdbId(field)) == field
    ensures id != Some([]) ==> TmdbId(TmdbField(id)) == id
  {
  }

  /** The links loop: one link per row, in row order. */
  method BuildLinks(rows: seq<LinkRow>) returns (links: seq<Link>)
    ensures |links| == |rows|
    ensures forall i :: 0 <= i < |rows| ==> links[i] == Link(rows[i].movieId, rows[i].imdbId, TmdbId(rows[i].tmdbId))
  {
    links := [];
    for i := 0 to |rows|
      invariant |links| == i
      invariant forall j :: 0 <= j < i ==> links[j] == Link(rows[j].movieId, rows[j].imdbId, TmdbId(rows[j].tmdbId))
    {
      var tmdbId := TmdbId(rows[i].tmdbId);
      links := links + [Link(rows[i].movieId, rows[i].imdbId, tmdbId)];
    }
  }

  // ---------------------------------------------------------------------
  // Ratings

  /** The ratings loop: rows are buffered and the buffer is written out
      whenever `count` reaches a multiple of 10000, then whatever remains is
      written once more when it is not empty. The written batches, in order, are exactly the rows,
      each once; every batch but the last holds 10000 rows; the last is not
      empty; and `count` ends as the number of rows read. */
  method ImportRatings(rows: seq<Rating>) returns (batches: seq<seq<Rating>>, count: nat)
    ensures count == |rows|
    ensures IsChunking(batches, rows, RatingFlushEvery)
    ensures batches == Chunks(rows, RatingFlushEvery)
  {
    var buffer: seq<Rating> := [];
    batches := [];
    count := 0;
    for i := 0 to |rows|
      invariant count == i
      invariant |buffer| == count % RatingFlushEvery
      invariant Flatten(batches) + buffer == rows[..i]
      invariant forall j :: 0 <= j < |batches| ==> |batches[j]| == RatingFlushEvery
    {
      assert rows[..i + 1] == rows[..i] + [rows[i]];
      buffer := buffer + [rows[i]];
      count := count + 1;
      if count % RatingFlushEvery == 0 {
        FlattenAppend(batches, buffer);
        batches := batches + [buffer];
        buffer := [];
      }
    }
    assert rows[..|rows|] == rows;
    LastBatch(batches, buffer, rows, RatingFlushEvery);
    if buffer != [] {
      batches := batches + [buffer];
    }
    ChunkingUnique(batches, rows, RatingFlushEvery);
  }

  // ---------------------------------------------------------------------
  // The whole command

  /** What the command writes, table by table. */
  datatype ImportLog = ImportLog(
    genres: seq<Genre>,
    movies: seq<Movie>,
    relationships: seq<MovieGenre>,
    links: seq<Link>,
    ratingBatches: seq<seq<Rating>>,
    ratingCount: nat,
    tags: seq<Tag>)

  /** `Command.handle`. `genreTable` is the name -> id map the command reads
      back from the genres table after inserting the genres; the database
      assigns the ids, so it is an input here. */
  method Handle(movieRows: seq<MovieRow>, linkRows: seq<LinkRow>, ratingRows: seq<Rating>,
                tagRows: seq<Tag>, genreTable: map<string, int>) returns (log: ImportLog)
    ensures forall g :: Genre(g) in log.genres <==>
      g != [] && exists k :: 0 <= k < |movieRows| && g in Split(movieRows[k].genres, Bar)
    ensures forall i, j :: 0 <= i < j < |log.genres| ==> log.genres[i] != log.genres[j]
    ensures |log.movies| == |movieRows|
    ensures forall i :: 0 <= i < |movieRows| ==> log.movies[i] == Movie(movieRows[i].movieId, movieRows[i].title)
    ensures log.relationships == Relationships(GenreMapOf(movieRows).keys, GenreMapOf(movieRows).values, genreTable)
    ensures (forall g :: Genre(g) in log.genres ==> g in genreTable) ==>
      |log.relationships| == NameCount(GenreMapOf(movieRows).keys, GenreMapOf(movieRows).values)
    ensures |log.links| == |linkRows|
    ensures forall i :: 0 <= i < |linkRows| ==>
      log.links[i] == Link(linkRows[i].movieId, linkRows[i].imdbId, TmdbId(linkRows[i].tmdbId))
    ensures log.ratingBatches == Chunks(ratingRows, RatingFlushEvery)
    ensures log.ratingCount == |ratingRows|
    ensures log.tags == tagRows
  {
    var genres := ExtractGenres(movieRows);
    var movies, genreMap := BuildMovies(movieRows);
    var relationships := BuildRelationships(genreMap, genreTable);
    var links := BuildLinks(linkRows);
    var batches, count := ImportRatings(ratingRows);
    log := ImportLog(genres, movies, relationships, links, batches, count, tagRows);
    if forall g :: Genre(g) in genres ==> g in genreTable {
      forall g | g != [] && g in GenreSetOf(movieRows) ensures g in genreTable {
        GenreSetOfMembership(movieRows, g);
        assert Genre(g) in genres;
      }
      NoNameSkipped(movieRows, genreTable);
    }
  }
}
