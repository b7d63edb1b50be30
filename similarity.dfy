/**
 * Pairwise taste similarity between two users
 * (backend/app/services/similarity.py).
 *
 * Each user contributes three sets: genres, artists and (title, artist)
 * song pairs. Each category scores its Jaccard ratio, the ratios are
 * weighted 0.3 / 0.4 / 0.3 and the sum is rounded to two decimals.
 * Scores are exact reals; rounding is to the nearest hundredth with ties
 * to the even hundredth, which is what Python's `round(x, 2)` does on an
 * exactly representable value.
 */
module Similarity {
  import opened Wrappers
  import opened Models

  /** A song's identity for matching: lower-cased title and artist. */
  type SongKey = (string, string)

  /** The three sets one user contributes to the score. */
  datatype TasteProfile = TasteProfile(genres: set<string>, artists: set<string>, songs: set<SongKey>)

  const GenreWeight: real := 0.3
  const ArtistWeight: real := 0.4
  const SongWeight: real := 0.3

  function LowerChar(c: char): char
  {
    if 'A' <= c <= 'Z' then (c as int + 32) as char else c
  }

  /** Python's `str.lower`, on the ASCII letters. */
  function Lower(s: string): (r: string)
    ensures |r| == |s|
    ensures forall i :: 0 <= i < |r| ==> !('A' <= r[i] <= 'Z')
    ensures forall i :: 0 <= i < |r| ==> (r[i] == s[i] || 'A' <= s[i] <= 'Z')
    ensures forall i | 0 <= i < |s| && 'A' <= s[i] <= 'Z' :: r[i] as int == s[i] as int + 32
  {
    seq(|s|, i requires 0 <= i < |s| => LowerChar(s[i]))
  }

  /** The songs query: every song of user `uid`, favourite or not, in table order. */
  function UserSongs(songs: seq<Song>, uid: int): (r: seq<Song>)
    ensures forall s :: s in r <==> s in songs && s.userId == uid
    ensures |r| <= |songs|
  {
    if songs == [] then []
    else
      var rest := UserSongs(songs[1..], uid);
      if songs[0].userId == uid then [songs[0]] + rest else rest
  }

  lemma NoSongsOfUser(songs: seq<Song>, uid: int)
    requires forall s :: s in songs ==> s.userId != uid
    ensures UserSongs(songs, uid) == []
    ensures SongKeys(UserSongs(songs, uid)) == {}
  {
  }

  function KeyOf(s: Song): SongKey
  {
    (Lower(s.title), Lower(s.artist))
  }

  /** The set comprehension of lower-cased (title, artist) pairs. */
  function SongKeys(songs: seq<Song>): set<SongKey>
  {
    set s | s in songs :: KeyOf(s)
  }

  /** The three sets of one user, built from the user row and the songs table. */
  function ProfileOf(u: User, songs: seq<Song>): TasteProfile
  {
    TasteProfile(SetOf(u.topGenres), SetOf(u.favoriteArtists), SongKeys(UserSongs(songs, u.id)))
  }

  /** |a ∩ b| / max(|a ∪ b|, 1): a ratio in [0, 1] that is 0, not undefined, on two empty sets. */
  function Jaccard<T>(a: set<T>, b: set<T>): (r: real)
    ensures 0.0 <= r <= 1.0
    ensures a == {} && b == {} ==> r == 0.0
    ensures r == 0.0 <==> a * b == {}
  {
    assert a * b <= a + b;
    CardinalityMonotone(a * b, a + b);
    (|a * b| as real) / (Max(|a + b|, 1) as real)
  }

  lemma CardinalityMonotone<T>(a: set<T>, b: set<T>)
    requires a <= b
    ensures |a| <= |b|
  {
    assert b == a + (b - a);
  }

  /** Rounding half to even of a real to an integer. */
  function RoundHalfEven(y: real): (n: int)
    ensures -0.5 <= y - n as real <= 0.5
    ensures y - n as real == 0.5 || y - n as real == -0.5 ==> n % 2 == 0
  {
    var f := y.Floor;
    var d := y - f as real;
    if d < 0.5 then f
    else if d > 0.5 then f + 1
    else if f % 2 == 0 then f
    else f + 1
  }

  /** `round(x, 2)`: the nearest hundredth, ties to the even hundredth. */
  function Round2(x: real): (r: real)
    ensures (r * 100.0).Floor as real == r * 100.0
    ensures -0.5 <= x * 100.0 - r * 100.0 <= 0.5
    ensures x * 100.0 - r * 100.0 == 0.5 || x * 100.0 - r * 100.0 == -0.5 ==> (r * 100.0).Floor % 2 == 0
    ensures -0.005 <= r - x <= 0.005
    ensures 0.0 <= x <= 1.0 ==> 0.0 <= r <= 1.0
  {
    var n := RoundHalfEven(x * 100.0);
    assert 0.0 <= x <= 1.0 ==> 0 <= n <= 100;
    n as real / 100.0
  }

  /** A value that already is a whole number of hundredths is left as it is. */
  lemma Round2Exact(k: int)
    ensures Round2(k as real / 100.0) == k as real / 100.0
  {
    assert (k as real / 100.0) * 100.0 == k as real;
    assert (k as real).Floor == k;
  }

  /** The unrounded weighted sum of the three Jaccard ratios. */
  function WeightedSum(p1: TasteProfile, p2: TasteProfile): (r: real)
    ensures 0.0 <= r <= 1.0
  {
    GenreWeight * Jaccard(p1.genres, p2.genres)
    + ArtistWeight * Jaccard(p1.artists, p2.artists)
    + SongWeight * Jaccard(p1.songs, p2.songs)
  }

  /** The score of two profiles: the weighted sum rounded to two decimals. */
  function Score(p1: TasteProfile, p2: TasteProfile): (r: real)
    ensures 0.0 <= r <= 1.0
  {
    Round2(WeightedSum(p1, p2))
  }

  /** `calculate_similarity_score(user1, user2, db)`, the songs table passed in. */
  function CalculateSimilarityScore(u1: User, u2: User, songs: seq<Song>): (r: real)
    ensures 0.0 <= r <= 1.0
  {
    Score(ProfileOf(u1, songs), ProfileOf(u2, songs))
  }

  /** The score only uses ∩ and ∪, so it does not depend on argument order. */
  lemma ScoreSymmetric(p1: TasteProfile, p2: TasteProfile)
    ensures Score(p1, p2) == Score(p2, p1)
  {
    assert p1.genres * p2.genres == p2.genres * p1.genres;
    assert p1.genres + p2.genres == p2.genres + p1.genres;
    assert p1.artists * p2.artists == p2.artists * p1.artists;
    assert p1.artists + p2.artists == p2.artists + p1.artists;
    assert p1.songs * p2.songs == p2.songs * p1.songs;
    assert p1.songs + p2.songs == p2.songs + p1.songs;
  }

  lemma CalculateSimilarityScoreSymmetric(u1: User, u2: User, songs: seq<Song>)
    ensures CalculateSimilarityScore(u1, u2, songs) == CalculateSimilarityScore(u2, u1, songs)
  {
    ScoreSymmetric(ProfileOf(u1, songs), ProfileOf(u2, songs));
  }

  /** Two users with no genres, no artists and no songs score exactly 0. */
  lemma EmptyProfilesScoreZero(u1: User, u2: User, songs: seq<Song>)
    requires u1.topGenres == [] && u2.topGenres == []
    requires u1.favoriteArtists == [] && u2.favoriteArtists == []
    requires forall s :: s in songs ==> s.userId != u1.id && s.userId != u2.id
    ensures CalculateSimilarityScore(u1, u2, songs) == 0.0
  {
    NoSongsOfUser(songs, u1.id);
    NoSongsOfUser(songs, u2.id);
    Round2Exact(0);
  }

  /** A set compared with itself has ratio 1, unless it is empty. */
  lemma JaccardSelf<T>(a: set<T>)
    ensures Jaccard(a, a) == if a == {} then 0.0 else 1.0
  {
    assert a * a == a && a + a == a;
    if a != {} {
      var x :| x in a;
      assert |a| >= 1 by { CardinalityMonotone({x}, a); }
      assert Max(|a + a|, 1) == |a * a| == |a|;
      assert (|a| as real) / (|a| as real) == 1.0;
    }
  }

  function Indicator(nonEmpty: bool, w: real): real
  {
    if nonEmpty then w else 0.0
  }

  /**
   * A profile compared with itself scores the total weight of its non-empty
   * categories: 1.0 only when all three are non-empty.
   */
  lemma SelfScore(p: TasteProfile)
    ensures Score(p, p) ==
      Indicator(p.genres != {}, GenreWeight) + Indicator(p.artists != {}, ArtistWeight) + Indicator(p.songs != {}, SongWeight)
  {
    var k := (if p.genres != {} then 30 else 0) + (if p.artists != {} then 40 else 0) + (if p.songs != {} then 30 else 0);
    JaccardSelf(p.genres);
    JaccardSelf(p.artists);
    JaccardSelf(p.songs);
    assert WeightedSum(p, p) == k as real / 100.0;
    Round2Exact(k);
  }

  lemma SelfScoreIsOneIffComplete(p: TasteProfile)
    ensures Score(p, p) == 1.0 <==> p.genres != {} && p.artists != {} && p.songs != {}
  {
    SelfScore(p);
  }

  /** A profile with genres only scores 0.3 against itself. */
  lemma GenresOnlySelfScore(p: TasteProfile)
    requires p.genres != {} && p.artists == {} && p.songs == {}
    ensures Score(p, p) == 0.3
  {
    SelfScore(p);
  }

  /**
   * Every song of the user counts, favourite or not; its identity is its
   * lower-cased title and artist.
   */
  lemma AllSongsCount(u: User, songs: seq<Song>, s: Song)
    requires s in songs && s.userId == u.id
    ensures (Lower(s.title), Lower(s.artist)) in ProfileOf(u, songs).songs
  {
    assert s in UserSongs(songs, u.id);
    assert KeyOf(s) in SongKeys(UserSongs(songs, u.id));
  }

  /** Listing a genre twice does not change any score: the list becomes a set. */
  lemma DuplicateGenreIgnored(u: User, v: User, songs: seq<Song>, g: string)
    requires g in u.topGenres
    ensures CalculateSimilarityScore(u.(topGenres := u.topGenres + [g]), v, songs)
         == CalculateSimilarityScore(u, v, songs)
  {
    assert SetOf(u.topGenres + [g]) == SetOf(u.topGenres);
  }

  /** {x, y} against {x}: one common element out of two. */
  lemma HalfOverlap(x: string, y: string)
    requires x != y
    ensures Jaccard({x, y}, {x}) == 0.5
  {
    assert {x, y} * {x} == {x};
    assert {x, y} + {x} == {x, y};
    assert |{x, y}| == 2;
  }

  /** Worked example: {pop, rock} / {X, Y} against {pop} / {X}, no songs, scores 0.35. */
  lemma WorkedExample(songs: seq<Song>)
    requires forall s :: s in songs ==> s.userId != 1 && s.userId != 2
    ensures CalculateSimilarityScore(
              User(1, "a", ["pop", "rock"], ["X", "Y"], 0, 0),
              User(2, "b", ["pop"], ["X"], 0, 0), songs) == 0.35
  {
    var u1 := User(1, "a", ["pop", "rock"], ["X", "Y"], 0, 0);
    var u2 := User(2, "b", ["pop"], ["X"], 0, 0);
    NoSongsOfUser(songs, 1);
    NoSongsOfUser(songs, 2);
    var p1 := TasteProfile({"pop", "rock"}, {"X", "Y"}, {});
    var p2 := TasteProfile({"pop"}, {"X"}, {});
    assert ProfileOf(u1, songs) == p1;
    assert ProfileOf(u2, songs) == p2;
    HalfOverlap("pop", "rock");
    HalfOverlap("X", "Y");
    assert WeightedSum(p1, p2) == 35 as real / 100.0;
    Round2Exact(35);
  }

  /** Genres are compared as written: "Pop" and "pop" have nothing in common. */
  lemma GenresCaseSensitive()
    ensures Jaccard(SetOf(["Pop"]), SetOf(["pop"])) == 0.0
  {
    assert "Pop"[0] != "pop"[0];
    assert SetOf(["Pop"]) * SetOf(["pop"]) == {};
  }

  /** Two characters are the same letter up to ASCII case, or the same character. */
  predicate CaseVariant(c: char, d: char)
  {
    c == d
    || ('A' <= c <= 'Z' && d as int == c as int + 32)
    || ('A' <= d <= 'Z' && c as int == d as int + 32)
  }

  /** Two strings agree position by position up to ASCII case. */
  predicate EqualIgnoringCase(a: string, b: string)
  {
    |a| == |b| && forall i | 0 <= i < |a| :: CaseVariant(a[i], b[i])
  }

  lemma LowerCharAgrees(c: char, d: char)
    ensures LowerChar(c) == LowerChar(d) <==> CaseVariant(c, d)
  {
  }

  /** Lower-casing identifies two strings exactly when they differ only in case. */
  lemma LowerEqualIff(a: string, b: string)
    ensures Lower(a) == Lower(b) <==> EqualIgnoringCase(a, b)
  {
    if |a| == |b| {
      forall i | 0 <= i < |a| ensures Lower(a)[i] == Lower(b)[i] <==> CaseVariant(a[i], b[i]) {
        LowerCharAgrees(a[i], b[i]);
      }
      if EqualIgnoringCase(a, b) {
        assert forall i | 0 <= i < |a| :: Lower(a)[i] == Lower(b)[i];
      }
    } else {
      assert |Lower(a)| != |Lower(b)|;
    }
  }

  /**
   * Song titles and artists are compared ignoring case: two songs have the
   * same key exactly when their titles and their artists differ only in case.
   */
  lemma SongsCaseInsensitive(s1: Song, s2: Song)
    ensures KeyOf(s1) == KeyOf(s2)
        <==> EqualIgnoringCase(s1.title, s2.title) && EqualIgnoringCase(s1.artist, s2.artist)
  {
    LowerEqualIff(s1.title, s2.title);
    LowerEqualIff(s1.artist, s2.artist);
  }

  /** "Yellow" by "Coldplay" and "YELLOW" by "coldplay" are the same song. */
  lemma SongsCaseInsensitiveExample()
    ensures KeyOf(Song(1, 1, "Yellow", "Coldplay", true)) == KeyOf(Song(2, 2, "YELLOW", "coldplay", false))
  {
    SongsCaseInsensitive(Song(1, 1, "Yellow", "Coldplay", true), Song(2, 2, "YELLOW", "coldplay", false));
  }
}
