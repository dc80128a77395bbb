# Movie voting server, modelled in Dafny

The server of a small movie-voting web application keeps three tables:

- **users**: a username, which is the primary key, and the stored password hash.
- **movies**: an AUTOINCREMENT id, a title, a description, the author's username and a vote counter that starts at 0.
- **votes**: `(username, movie_id)` pairs. The pair is the primary key.

Five request handlers read and change these tables. They are register, login, list movies (`GET /movies`), add a movie (`POST /movies`) and vote.

`movie_app.dfy` (module `MovieApp`) models the tables as the class `MovieStore`. Its fields are `users` (a map), `movies` (a sequence in insertion order), `votes` (a set of `VoteKey`) and `nextId` (the AUTOINCREMENT counter).

- The three handlers that write are methods. Each returns a `Response`, which is a status code plus the route's message.
- Login and the movie listing only read, so they are functions of the store.
- A request field is an `Option<string>`. `Missing` is Python's `not x`: the field is absent, JSON null, or `""`.
- The password-hashing library stays opaque. `PasswordScheme` holds a `generate`/`check` pair of function values.
- The only thing assumed about that pair is `Sound()`: a password checks against any hash generated from it.
- The random salt of `generate` is a parameter of `Register`.
- A route's `movie_id` is a `nat`, because the route's integer converter accepts only non-negative numbers.

Two invariants are kept:

- `Valid()` is what the code as written keeps:
  - ids strictly increase, in insertion order;
  - every id lies in `[1, nextId)`;
  - every counter lies between 0 and the number of recorded votes for its id.
- `Tallied()` is the tally the design intends:
  - every counter equals the number of recorded votes for its id;
  - no recorded vote names an id the counter has not issued yet.

  `VotesAreOnePerUser` shows that under this tally a counter is the number of distinct users who voted for that movie.

## Model

| member | source | states |
|---|---|---|
| MovieApp.MovieStore.constructor | app.py:8-39 | a new database has three empty tables, the id counter at 1, and both invariants hold |
| MovieApp.MovieStore.Register | app.py:50-71 | a missing username or password gives 400 and changes nothing; a taken username gives 400 "Username already taken" and changes nothing; otherwise the result is 201, exactly that user is added with the generated hash of the password, movies, votes and the counter are unchanged, login with the same credentials then gives 200, and both invariants are preserved |
| MovieApp.MovieStore.Login | app.py:77-95 | 400 "Missing username or password" exactly when a field is missing; 401 "Invalid username or password" exactly when the user is unknown or the password does not check against the stored hash; 200 "Login successful" exactly otherwise; a function, so the store is unchanged |
| MovieApp.MovieStore.ListMovies | app.py:101-119 | the result is a permutation of the stored movies, ordered by votes with the highest first |
| MovieApp.MovieStore.AddMovie | app.py:123-140 | unless title, description and author are all present: 400 and no change; otherwise 201, one movie is appended with the counter's id and 0 votes, that id is greater than every id stored before, the counter advances, the listing gains exactly that movie, users and votes are unchanged, and both invariants are preserved |
| MovieApp.MovieStore.Vote | app.py:145-166 | a missing username gives 400 and no change; an already recorded pair gives 400 and no change; otherwise 200, exactly that pair is added, the movie with that id (if any) gains exactly one vote, every other movie and users are unchanged; `Valid()` is preserved, and `Tallied()` is preserved when the id was already issued |
| MovieApp.MovieStore.VoteEnforcingKeys | app.py:145-166 | the vote route with the votes table's foreign keys (app.py:35-36, on username and movie_id) enforced: a vote naming an unknown movie or user gives 500 and no change; otherwise the same as `Vote`; `Tallied()` is preserved unconditionally |
| MovieApp.DanglingVoteScenario | app.py:150-166 | on a fresh store, a vote for id 1 answers 200; the movie then added gets id 1 and 0 votes while one vote is recorded for it, so `Tallied()` fails; a second vote by the same user answers 400 |
| MovieApp.VotesForAdd | app.py:163-164 | recording a new pair raises the vote count of its movie id by exactly one and leaves every other id's count unchanged |
| MovieApp.Bumped | app.py:164 | the counter update changes only the `votes` field of rows; a row changes exactly when its id is the voted id, and then gains exactly one vote; with increasing ids at most one row changes |
| MovieApp.NoVotesBeyondCounter | app.py:21 | when every vote names an id already issued, the id AUTOINCREMENT hands out next has no recorded votes, so a new movie's 0 matches its tally |
| MovieApp.VotesAreOnePerUser | app.py:34 | because `(username, movie_id)` is a key, the votes for a movie are exactly as many as the distinct users who voted for it |
| MovieApp.TalliedCountsVoters | app.py:34 | under the tally, a movie's counter is the number of distinct users who voted for it |
| MovieApp.InsertByVotes | app.py:110 | inserting a movie into a list ordered by votes gives an ordered list with the same movies plus that one |
| MovieApp.SortByVotes | app.py:107-111 | ORDER BY votes DESC yields a permutation of the rows, ordered by votes with the highest first |

## Left out

- HTTP routing, JSON decoding and encoding, and the HTML page are left out. A request is reduced to its fields and a response to a status code and message.
- The SQLite connection and schema creation are left out. So is every `except Exception` path that answers 500 (registration, login, listing, add and vote failures), because these depend on the database failing. The one 500 that is modelled is the foreign-key failure in `VoteEnforcingKeys`.
- The internals of password hashing are left out. Hashing is the opaque `PasswordScheme`, and its salt comes in as a parameter.
- JSON fields of types other than string (numbers, lists) are left out. Every field is a string or absent.
- Requests whose body is not JSON are left out.
- The order among movies with equal votes is left out, because SQLite does not specify it. `ListMovies` states only the non-increasing order.
- 64-bit integer limits on ids and counters are left out. They would surface only through the 500 path.
- Concurrent requests are left out. Two requests could interleave between the SELECT and the INSERT of `register` or `vote_movie`, but the model runs one request at a time.
- The foreign key from a movie's author to the users table is left out. SQLite does not enforce foreign keys by default, so `AddMovie` accepts any non-empty author, as the code does.
- The browser client (`static/js/script.js`) is left out. It is DOM rendering and fetch calls, and has no server state.

## Findings

| source | as written | input that shows it | evidently intended | confidence | as-written member | corrected member |
|---|---|---|---|---|---|---|
| app.py:150-166 | `vote_movie` records the pair and answers 200 without checking that the movie exists; SQLite does not enforce the declared `FOREIGN KEY (movie_id) REFERENCES movies (id)` | on a fresh database, vote for movie 1 as `alice` (200), then add a movie: it gets id 1 with 0 votes, but one vote for id 1 is recorded, and `alice` can never vote for it (400 "Already voted") | a vote names an existing movie and user, as the schema's foreign keys at app.py:35-36 declare; with keys enforced the INSERT fails and the route answers 500 | high, not executed | MovieApp.DanglingVoteScenario | MovieApp.MovieStore.VoteEnforcingKeys |
