/**
  The server of the movie-voting application: three tables (users, movies,
  votes) and the five request handlers that read and change them. HTTP
  routing, JSON parsing and the database connection are abstracted away:
  a request is its fields, a response is a status code and a message.
 */
module MovieApp {

  datatype Option<+T> = None | Some(value: T)

  /** A request field as the handler sees it: absent (or JSON null) or a string. */
  type Field = Option<string>

  /** Python's `not x` on a request field: true for an absent field and for "". */
  predicate Missing(f: Field) {
    f.None? || f.value == ""
  }

  datatype Response = Response(status: int, message: string)

  const MsgMissingCredentials := "Missing username or password"
  const MsgUsernameTaken := "Username already taken"
  const MsgRegistered := "Registration successful"
  const MsgInvalidCredentials := "Invalid username or password"
  const MsgLoggedIn := "Login successful"
  const MsgMissingFields := "Missing required fields"
  const MsgMovieAdded := "Movie added successfully"
  const MsgUsernameRequired := "Username required"
  const MsgAlreadyVoted := "Already voted for this movie"
  const MsgVoteRecorded := "Vote recorded"
  const MsgVotingFailed := "Voting failed"

  /**
    The password hashing library, left opaque: `generate` turns a password
    and a random salt into a stored hash, `check` tests a password against a
    stored hash. The only property relied on is that a password checks
    against any hash generated from it.
   */
  datatype PasswordScheme = PasswordScheme(
    generate: (string, string) -> string,
    check: (string, string) -> bool)
  {
    ghost predicate Sound() {
      forall password, salt :: check(generate(password, salt), password)
    }
  }

  /** A row of the movies table; `username` is the author. */
  datatype Movie = Movie(id: int, title: string, description: string, username: string, votes: int)

  /** A row of the votes table; the pair is the table's primary key. */
  datatype VoteKey = VoteKey(username: string, movieId: int)

  // ---------------------------------------------------------------------
  // Table invariants
  // ---------------------------------------------------------------------

  /** Movies are stored in insertion order, and AUTOINCREMENT ids grow. */
  ghost predicate IdsIncreasing(movies: seq<Movie>) {
    forall i, j :: 0 <= i < j < |movies| ==> movies[i].id < movies[j].id
  }

  /** Every stored id was issued by the counter, which starts at 1. */
  ghost predicate IdsIssued(movies: seq<Movie>, nextId: int) {
    forall i :: 0 <= i < |movies| ==> 1 <= movies[i].id < nextId
  }

  /** The recorded votes for one movie id. */
  function VotesFor(votes: set<VoteKey>, id: int): set<VoteKey> {
    set k | k in votes && k.movieId == id
  }

  /** The users who voted for one movie id. */
  function Voters(votes: set<VoteKey>, id: int): set<string> {
    set k | k in votes && k.movieId == id :: k.username
  }

  /** What holds of the tables after any sequence of requests: a counter never exceeds its recorded votes. */
  ghost predicate CountsBounded(movies: seq<Movie>, votes: set<VoteKey>) {
    forall i :: 0 <= i < |movies| ==> 0 <= movies[i].votes <= |VotesFor(votes, movies[i].id)|
  }

  /**
    The intended tally: each movie's counter is the number of recorded votes
    for its id, and no vote names an id the counter has not issued yet.
   */
  ghost predicate TallyHolds(movies: seq<Movie>, votes: set<VoteKey>, nextId: int) {
    && (forall i :: 0 <= i < |movies| ==> movies[i].votes == |VotesFor(votes, movies[i].id)|)
    && (forall k :: k in votes ==> k.movieId < nextId)
  }

  predicate HasMovie(movies: seq<Movie>, id: int) {
    exists i :: 0 <= i < |movies| && movies[i].id == id
  }

  /** Recording one new vote adds one to that movie's count and leaves every other count alone. */
  lemma VotesForAdd(votes: set<VoteKey>, k: VoteKey, id: int)
    requires k !in votes
    ensures |VotesFor(votes + {k}, id)| == |VotesFor(votes, id)| + (if k.movieId == id then 1 else 0)
  {
    if k.movieId == id {
      assert VotesFor(votes + {k}, id) == VotesFor(votes, id) + {k};
    } else {
      assert VotesFor(votes + {k}, id) == VotesFor(votes, id);
    }
  }

  /** The votes for a movie are as many as the users who voted for it: one vote per user per movie. */
  lemma {:induction false} VotesAreOnePerUser(votes: set<VoteKey>, id: int)
    ensures |VotesFor(votes, id)| == |Voters(votes, id)|
    decreases |votes|
  {
    if k :| k in VotesFor(votes, id) {
      var rest := votes - {k};
      VotesAreOnePerUser(rest, id);
      assert VotesFor(votes, id) == VotesFor(rest, id) + {k};
      assert k.username !in Voters(rest, id);
      assert Voters(votes, id) == Voters(rest, id) + {k.username};
    } else {
      forall k | k in votes ensures k.movieId != id {
        assert k !in VotesFor(votes, id);
      }
      assert Voters(votes, id) == {};
    }
  }

  /** When every vote names an issued id, the id the counter hands out next has no votes yet. */
  lemma NoVotesBeyondCounter(votes: set<VoteKey>, nextId: int)
    requires forall k :: k in votes ==> k.movieId < nextId
    ensures VotesFor(votes, nextId) == {}
  {
  }

  /** Under the tally, a movie's counter is the number of distinct users who voted for it. */
  lemma TalliedCountsVoters(movies: seq<Movie>, votes: set<VoteKey>, nextId: int, i: int)
    requires TallyHolds(movies, votes, nextId)
    requires 0 <= i < |movies|
    ensures movies[i].votes == |Voters(votes, movies[i].id)|
  {
    VotesAreOnePerUser(votes, movies[i].id);
  }

  // ---------------------------------------------------------------------
  // ORDER BY votes DESC
  // ---------------------------------------------------------------------

  ghost predicate ByVotesDescending(s: seq<Movie>) {
    forall i, j :: 0 <= i < j < |s| ==> s[i].votes >= s[j].votes
  }

  /** Places one movie into a list already ordered by votes, highest first. */
  function InsertByVotes(m: Movie, s: seq<Movie>): (r: seq<Movie>)
    requires ByVotesDescending(s)
    ensures multiset(r) == multiset(s) + multiset{m}
    ensures ByVotesDescending(r)
    ensures |s| > 0 ==> r[0] == m || r[0] == s[0]
  {
    if s == [] then [m]
    else if m.votes >= s[0].votes then [m] + s
    else
      assert s == [s[0]] + s[1..];
      [s[0]] + InsertByVotes(m, s[1..])
  }

  /** The rows of a table reordered by votes, highest first; ties keep no particular order. */
  function SortByVotes(s: seq<Movie>): (r: seq<Movie>)
    ensures multiset(r) == multiset(s)
    ensures ByVotesDescending(r)
  {
    if s == [] then []
    else
      assert s == [s[0]] + s[1..];
      InsertByVotes(s[0], SortByVotes(s[1..]))
  }

  // ---------------------------------------------------------------------
  // The database and its request handlers
  // ---------------------------------------------------------------------

  class MovieStore {
    /** users: username (primary key) to stored password hash. */
    var users: map<string, string>
    /** movies, in insertion order. */
    var movies: seq<Movie>
    /** votes: the (username, movie_id) pairs. */
    var votes: set<VoteKey>
    /** The AUTOINCREMENT counter: the id the next inserted movie gets. */
    var nextId: int
    const scheme: PasswordScheme

    ghost predicate Valid()
      reads this
    {
      && scheme.Sound()
      && nextId >= 1
      && IdsIncreasing(movies)
      && IdsIssued(movies, nextId)
      && CountsBounded(movies, votes)
    }

    ghost predicate Tallied()
      reads this
    {
      TallyHolds(movies, votes, nextId)
    }

    /** A freshly created database: three empty tables. */
    constructor (scheme: PasswordScheme)
      requires scheme.Sound()
      ensures Valid() && Tallied()
      ensures this.scheme == scheme
      ensures users == map[] && movies == [] && votes == {} && nextId == 1
    {
      this.scheme := scheme;
      users, movies, votes, nextId := map[], [], {}, 1;
    }

    /** POST /register. `salt` stands for the randomness of the hashing library. */
    method Register(username: Field, password: Field, salt: string) returns (r: Response)
      requires Valid()
      modifies this
      ensures Valid()
      ensures Missing(username) || Missing(password) ==>
        r == Response(400, MsgMissingCredentials) && unchanged(this)
      ensures !Missing(username) && !Missing(password) && username.value in old(users) ==>
        r == Response(400, MsgUsernameTaken) && unchanged(this)
      ensures !Missing(username) && !Missing(password) && username.value !in old(users) ==>
        && r == Response(201, MsgRegistered)
        && users == old(users)[username.value := scheme.generate(password.value, salt)]
        && movies == old(movies) && votes == old(votes) && nextId == old(nextId)
      ensures r.status == 201 ==> Login(username, password) == Response(200, MsgLoggedIn)
      ensures old(Tallied()) ==> Tallied()
    {
      if Missing(username) || Missing(password) {
        return Response(400, MsgMissingCredentials);
      }
      if username.value in users {
        return Response(400, MsgUsernameTaken);
      }
      users := users[username.value := scheme.generate(password.value, salt)];
      r := Response(201, MsgRegistered);
    }

    /** POST /login: a lookup that changes nothing. */
    function Login(username: Field, password: Field): (r: Response)
      reads this
      ensures r == Response(400, MsgMissingCredentials) <==> Missing(username) || Missing(password)
      ensures r == Response(401, MsgInvalidCredentials) <==>
        !Missing(username) && !Missing(password) &&
        (username.value !in users || !scheme.check(users[username.value], password.value))
      ensures r == Response(200, MsgLoggedIn) <==>
        !Missing(username) && !Missing(password) &&
        username.value in users && scheme.check(users[username.value], password.value)
      ensures r.status in {200, 400, 401}
    {
      if Missing(username) || Missing(password) then
        Response(400, MsgMissingCredentials)
      else if username.value !in users || !scheme.check(users[username.value], password.value) then
        Response(401, MsgInvalidCredentials)
      else
        Response(200, MsgLoggedIn)
    }

    /** GET /movies: every stored movie, ordered by votes, highest first. */
    function ListMovies(): (r: seq<Movie>)
      reads this
      ensures multiset(r) == multiset(movies)
      ensures |r| == |movies|
      ensures ByVotesDescending(r)
    {
      var r := SortByVotes(movies);
      assert |r| == |multiset(r)| == |multiset(movies)| == |movies|;
      r
    }

    /** POST /movies. The author is not checked against the users table. */
    method AddMovie(title: Field, description: Field, username: Field) returns (r: Response)
      requires Valid()
      modifies this
      ensures Valid()
      ensures Missing(title) || Missing(description) || Missing(username) ==>
        r == Response(400, MsgMissingFields) && unchanged(this)
      ensures !Missing(title) && !Missing(description) && !Missing(username) ==>
        && r == Response(201, MsgMovieAdded)
        && movies == old(movies) + [Movie(old(nextId), title.value, description.value, username.value, 0)]
        && nextId == old(nextId) + 1
        && users == old(users) && votes == old(votes)
      ensures r.status == 201 ==>
        && (forall i :: 0 <= i < |old(movies)| ==> old(movies)[i].id < old(nextId))
        && multiset(ListMovies()) == multiset(old(ListMovies())) + multiset{movies[|movies| - 1]}
      ensures old(Tallied()) ==> Tallied()
    {
      if Missing(title) || Missing(description) || Missing(username) {
        return Response(400, MsgMissingFields);
      }
      if Tallied() {
        NoVotesBeyondCounter(votes, nextId);
      }
      var added := Movie(nextId, title.value, description.value, username.value, 0);
      movies := movies + [added];
      nextId := nextId + 1;
      assert multiset(movies) == multiset(old(movies)) + multiset{added};
      r := Response(201, MsgMovieAdded);
    }

    /**
      POST /movies/<movie_id>/vote, as the route is written: neither the
      movie nor the user is looked up. For an unknown id the pair is still
      recorded and the counter update touches no row.
     */
    method Vote(movieId: nat, username: Field) returns (r: Response)
      requires Valid()
      modifies this
      ensures Valid()
      ensures Missing(username) ==> r == Response(400, MsgUsernameRequired) && unchanged(this)
      ensures !Missing(username) && VoteKey(username.value, movieId) in old(votes) ==>
        r == Response(400, MsgAlreadyVoted) && unchanged(this)
      ensures !Missing(username) && VoteKey(username.value, movieId) !in old(votes) ==>
        && r == Response(200, MsgVoteRecorded)
        && votes == old(votes) + {VoteKey(username.value, movieId)}
        && |movies| == |old(movies)|
        && (forall i :: 0 <= i < |movies| ==>
              movies[i] == if old(movies)[i].id == movieId
                           then old(movies)[i].(votes := old(movies)[i].votes + 1)
                           else old(movies)[i])
        && users == old(users) && nextId == old(nextId)
      ensures old(Tallied()) && movieId < old(nextId) ==> Tallied()
    {
      if Missing(username) {
        return Response(400, MsgUsernameRequired);
      }
      var key := VoteKey(username.value, movieId);
      if key in votes {
        return Response(400, MsgAlreadyVoted);
      }
      ghost var wasTallied := Tallied();
      ghost var oldMovies, oldVotes := movies, votes;
      votes := votes + {key};
      movies := Bumped(movies, movieId);
      forall i | 0 <= i < |movies|
        ensures 0 <= movies[i].votes <= |VotesFor(votes, movies[i].id)|
        ensures wasTallied ==> movies[i].votes == |VotesFor(votes, movies[i].id)|
      {
        VotesForAdd(oldVotes, key, oldMovies[i].id);
      }
      r := Response(200, MsgVoteRecorded);
    }

    /**
      The vote route with the foreign keys of the votes table enforced: a
      vote naming an unknown movie or an unregistered user makes the INSERT
      fail, the transaction rolls back and the route answers 500.
     */
    method VoteEnforcingKeys(movieId: nat, username: Field) returns (r: Response)
      requires Valid()
      modifies this
      ensures Valid()
      ensures Missing(username) ==> r == Response(400, MsgUsernameRequired) && unchanged(this)
      ensures !Missing(username) && VoteKey(username.value, movieId) in old(votes) ==>
        r == Response(400, MsgAlreadyVoted) && unchanged(this)
      ensures !Missing(username) && VoteKey(username.value, movieId) !in old(votes) &&
              (!HasMovie(old(movies), movieId) || username.value !in old(users)) ==>
        r == Response(500, MsgVotingFailed) && unchanged(this)
      ensures !Missing(username) && VoteKey(username.value, movieId) !in old(votes) &&
              HasMovie(old(movies), movieId) && username.value in old(users) ==>
        && r == Response(200, MsgVoteRecorded)
        && votes == old(votes) + {VoteKey(username.value, movieId)}
        && |movies| == |old(movies)|
        && (forall i :: 0 <= i < |movies| ==>
              movies[i] == if old(movies)[i].id == movieId
                           then old(movies)[i].(votes := old(movies)[i].votes + 1)
                           else old(movies)[i])
        && users == old(users) && nextId == old(nextId)
      ensures old(Tallied()) ==> Tallied()
    {
      if !Missing(username) && VoteKey(username.value, movieId) !in votes &&
         (!HasMovie(movies, movieId) || username.value !in users) {
        return Response(500, MsgVotingFailed);
      }
      r := Vote(movieId, username);
    }
  }

  /** UPDATE movies SET votes = votes + 1 WHERE id = ?: bump the one matching row, if any. */
  function Bumped(movies: seq<Movie>, id: int): (r: seq<Movie>)
    ensures |r| == |movies|
    ensures forall i :: 0 <= i < |r| ==> r[i] == movies[i].(votes := r[i].votes)
    ensures forall i :: 0 <= i < |r| ==> (r[i] != movies[i] <==> movies[i].id == id)
    ensures forall i :: 0 <= i < |r| && r[i] != movies[i] ==> r[i].votes == movies[i].votes + 1
    ensures IdsIncreasing(movies) ==>
      forall i, j :: 0 <= i < |r| && 0 <= j < |r| && r[i] != movies[i] && r[j] != movies[j] ==> i == j
  {
    seq(|movies|, i requires 0 <= i < |movies| =>
      if movies[i].id == id then movies[i].(votes := movies[i].votes + 1) else movies[i])
  }

  /**
    A vote for an id the counter has not issued yet is accepted; the movie
    later created under that id starts at 0 votes although one vote for it is
    recorded, and that voter can never vote for it.
   */
  method DanglingVoteScenario(scheme: PasswordScheme) returns (s: MovieStore, first: Response, second: Response)
    requires scheme.Sound()
    ensures s.Valid() && !s.Tallied()
    ensures first.status == 200 && second.status == 400
    ensures |s.movies| == 1 && s.movies[0].id == 1 && s.movies[0].votes == 0
    ensures |VotesFor(s.votes, 1)| == 1
  {
    s := new MovieStore(scheme);
    first := s.Vote(1, Some("alice"));
    var added := s.AddMovie(Some("Inception"), Some("A heist film"), Some("bob"));
    second := s.Vote(1, Some("alice"));
    assert VotesFor(s.votes, 1) == {VoteKey("alice", 1)};
  }
}
