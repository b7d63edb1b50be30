/**
 * The parts of the user and song records that the matching logic reads.
 * Everything else in those tables (e-mail, password hash, handles, album,
 * rating, timestamps) is not used by the core and is not modelled.
 */
module Models {

  /** A row of the users table: taste lists and the two lifetime counters. */
  datatype User = User(
    id: int,
    username: string,
    topGenres: seq<string>,        // JSON list; a NULL column reads as []
    favoriteArtists: seq<string>,  // JSON list; a NULL column reads as []
    likesReceived: nat,
    connectionsMade: nat)

  /** A row of the songs table. */
  datatype Song = Song(id: int, userId: int, title: string, artist: string, isFavorite: bool)

  /** The distinct elements of a list, as Python's `set(list)` gives them. */
  function SetOf(s: seq<string>): set<string>
  {
    set x | x in s
  }

  /** A set built from a list never has more elements than the list. */
  lemma {:induction false} SetOfSize(s: seq<string>)
    ensures |SetOf(s)| <= |s|
  {
    if s != [] {
      SetOfSize(s[1..]);
      assert SetOf(s) == SetOf(s[1..]) + {s[0]};
    }
  }
}
