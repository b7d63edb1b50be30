/**
 * Feed handlers (backend/app/api/routes/feed.py): the recommendation
 * ranker and the "recent connections" part of the activity feed.
 */
module Feed {
  import opened Wrappers
  import opened Models
  import opened ConnectionModel
  import Connections
  import Similarity

  /** One entry of `/feed/recommendations`. */
  datatype Recommendation = Recommendation(
    userId: int,
    username: string,
    similarityScore: real,
    commonGenres: set<string>,
    commonArtists: set<string>,
    topSongs: seq<Song>)

  // ------------------------------------------------------------- scoring

  function CommonGenres(me: User, other: User): set<string>
  {
    SetOf(me.topGenres) * SetOf(other.topGenres)
  }

  function CommonArtists(me: User, other: User): set<string>
  {
    SetOf(me.favoriteArtists) * SetOf(other.favoriteArtists)
  }

  /** The overlap count over the length of the requester's lists (duplicates included). */
  function OverlapRatio(common: nat, listed: nat): (r: real)
    ensures 0.0 <= r
    ensures common <= listed ==> r <= 1.0
    ensures r == 0.0 <==> common == 0
  {
    var d := Max(listed, 1) as real;
    assert d >= 1.0;
    var q := common as real / d;
    assert q * d == common as real;
    q
  }

  /**
   * The ranker's own score: the common genres and artists over the length of
   * the REQUESTER's two lists. It lies in [0, 1] and is 0 exactly when
   * nothing is shared.
   */
  function RecommendationScore(me: User, other: User): (r: real)
    ensures 0.0 <= r <= 1.0
    ensures r == 0.0 <==> CommonGenres(me, other) == {} && CommonArtists(me, other) == {}
  {
    var g := CommonGenres(me, other);
    var a := CommonArtists(me, other);
    Similarity.CardinalityMonotone(g, SetOf(me.topGenres));
    Similarity.CardinalityMonotone(a, SetOf(me.favoriteArtists));
    SetOfSize(me.topGenres);
    SetOfSize(me.favoriteArtists);
    assert |g| + |a| == 0 <==> g == {} && a == {};
    OverlapRatio(|g| + |a|, |me.topGenres| + |me.favoriteArtists|)
  }

  /** The ranker's score is not symmetric: it divides by the requester's list lengths. */
  lemma RecommendationScoreAsymmetric()
    ensures var u := User(1, "u", ["pop"], [], 0, 0);
            var v := User(2, "v", ["pop", "rock"], [], 0, 0);
            RecommendationScore(u, v) == 1.0 && RecommendationScore(v, u) == 0.5
  {
    assert "pop" != "rock";
    assert SetOf(["pop"]) == {"pop"};
    assert SetOf(["pop", "rock"]) == {"pop", "rock"};
    assert {"pop"} * {"pop", "rock"} == {"pop"};
    assert {"pop", "rock"} * {"pop"} == {"pop"};
  }

  /**
   * The ranker counts a repeated genre of the requester in the denominator:
   * ["pop", "pop"] against ["pop"] scores 0.5, where ["pop"] scores 1.0.
   */
  lemma RepeatedGenreLowersRecommendationScore()
    ensures var twice := User(1, "u", ["pop", "pop"], [], 0, 0);
            var once := User(1, "u", ["pop"], [], 0, 0);
            var v := User(2, "v", ["pop"], [], 0, 0);
            RecommendationScore(twice, v) == 0.5 && RecommendationScore(once, v) == 1.0
  {
    assert SetOf(["pop"]) == {"pop"};
    assert SetOf(["pop", "pop"]) == {"pop"};
  }

  /** The favourite-songs query of a user, in table order. */
  function FavoriteSongs(songs: seq<Song>, uid: int): (r: seq<Song>)
    ensures forall s | s in r :: s in songs && s.userId == uid && s.isFavorite
    ensures forall s | s in songs && s.userId == uid && s.isFavorite :: s in r
  {
    if songs == [] then []
    else
      var rest := FavoriteSongs(songs[1..], uid);
      if songs[0].userId == uid && songs[0].isFavorite then [songs[0]] + rest else rest
  }

  /** `top_songs`: the first three favourite songs of the user, or all of them if fewer. */
  function TopSongs(songs: seq<Song>, uid: int): (r: seq<Song>)
    ensures |r| <= 3
    ensures |r| == Min(3, |FavoriteSongs(songs, uid)|)
    ensures r == FavoriteSongs(songs, uid)[..|r|]
    ensures forall s | s in r :: s in songs && s.userId == uid && s.isFavorite
  {
    var fav := FavoriteSongs(songs, uid);
    if |fav| <= 3 then fav else fav[..3]
  }

  /** The entry built for one candidate. */
  function Entry(me: User, u: User, songs: seq<Song>): Recommendation
  {
    Recommendation(u.id, u.username, RecommendationScore(me, u),
                   CommonGenres(me, u), CommonArtists(me, u), TopSongs(songs, u.id))
  }

  /** The reported overlaps are exactly the ones the score counts. */
  lemma EntryExplainsScore(me: User, u: User, songs: seq<Song>)
    ensures var e := Entry(me, u, songs);
      e.similarityScore == OverlapRatio(|e.commonGenres| + |e.commonArtists|, |me.topGenres| + |me.favoriteArtists|)
      && e.commonGenres == SetOf(me.topGenres) * SetOf(u.topGenres)
      && e.commonArtists == SetOf(me.favoriteArtists) * SetOf(u.favoriteArtists)
  {
  }

  // ---------------------------------------------------------- candidates

  /** A connection exists between `a` and `b` in either direction. */
  predicate Connected(conns: map<int, Connection>, a: int, b: int)
  {
    Connections.HasOrdered(conns, a, b) || Connections.HasOrdered(conns, b, a)
  }

  /** The users query: every user except the requester, in table order. */
  function OtherUsers(users: seq<User>, me: int): (r: seq<User>)
    ensures forall u | u in r :: u in users && u.id != me
    ensures forall u | u in users && u.id != me :: u in r
  {
    if users == [] then []
    else
      var rest := OtherUsers(users[1..], me);
      if users[0].id != me then [users[0]] + rest else rest
  }

  /** Whether the loop keeps a candidate: not connected either way, and some overlap. */
  predicate Keep(me: User, u: User, conns: map<int, Connection>)
  {
    !Connected(conns, me.id, u.id) && RecommendationScore(me, u) > 0.0
  }

  /** What the loop has appended after visiting `others`, in visiting order. */
  function Candidates(me: User, others: seq<User>, conns: map<int, Connection>, songs: seq<Song>)
    : (r: seq<Recommendation>)
    ensures |r| <= |others|
    ensures forall e | e in r :: e.similarityScore > 0.0 && !Connected(conns, me.id, e.userId)
  {
    if others == [] then []
    else
      var u := others[|others| - 1];
      var rest := Candidates(me, others[..|others| - 1], conns, songs);
      if Keep(me, u, conns) then rest + [Entry(me, u, songs)] else rest
  }

  // ------------------------------------------------------------- sorting

  predicate SortedDesc(s: seq<Recommendation>)
  {
    forall i, j | 0 <= i < j < |s| :: s[i].similarityScore >= s[j].similarityScore
  }

  /** Places `x` after every element scoring at least as much. */
  function InsertByScore(x: Recommendation, s: seq<Recommendation>): seq<Recommendation>
  {
    if s == [] then [x]
    else if s[0].similarityScore >= x.similarityScore then [s[0]] + InsertByScore(x, s[1..])
    else [x] + s
  }

  /**
   * `list.sort(key=score, reverse=True)`: a stable sort, non-increasing by
   * score, written as an insertion sort.
   */
  function SortByScoreDesc(s: seq<Recommendation>): (r: seq<Recommendation>)
    ensures SortedDesc(r)
    ensures multiset(r) == multiset(s)
    ensures |r| == |s|
  {
    if s == [] then []
    else
      var init := s[..|s| - 1];
      var sortedInit := SortByScoreDesc(init);
      InsertSorted(s[|s| - 1], sortedInit);
      InsertPermutation(s[|s| - 1], sortedInit);
      assert s == init + [s[|s| - 1]];
      InsertByScore(s[|s| - 1], sortedInit)
  }

  /** The elements with score `v`, in order. */
  function ScoreClass(s: seq<Recommendation>, v: real): seq<Recommendation>
  {
    if s == [] then []
    else ScoreClass(s[..|s| - 1], v) + (if s[|s| - 1].similarityScore == v then [s[|s| - 1]] else [])
  }

  lemma {:induction false} InsertPermutation(x: Recommendation, s: seq<Recommendation>)
    ensures multiset(InsertByScore(x, s)) == multiset(s) + multiset{x}
    ensures |InsertByScore(x, s)| == |s| + 1
  {
    if s != [] && s[0].similarityScore >= x.similarityScore {
      InsertPermutation(x, s[1..]);
      assert s == [s[0]] + s[1..];
    }
  }

  lemma {:induction false} InsertSorted(x: Recommendation, s: seq<Recommendation>)
    requires SortedDesc(s)
    ensures SortedDesc(InsertByScore(x, s))
  {
    if s == [] {
    } else if s[0].similarityScore >= x.similarityScore {
      var t := InsertByScore(x, s[1..]);
      InsertSorted(x, s[1..]);
      InsertPermutation(x, s[1..]);
      assert t[0].similarityScore <= s[0].similarityScore by {
        if s[1..] != [] && s[1].similarityScore >= x.similarityScore {
          assert t[0] == s[1];
        }
      }
      var r := [s[0]] + t;
      assert r == InsertByScore(x, s);
      forall i, j | 0 <= i < j < |r| ensures r[i].similarityScore >= r[j].similarityScore {
        if i == 0 {
          assert r[j] == t[j - 1];
        } else {
          assert r[i] == t[i - 1] && r[j] == t[j - 1];
        }
      }
    } else {
      var r := [x] + s;
      forall i, j | 0 <= i < j < |r| ensures r[i].similarityScore >= r[j].similarityScore {
        if i == 0 {
          assert r[j] == s[j - 1];
        } else {
          assert r[i] == s[i - 1] && r[j] == s[j - 1];
        }
      }
    }
  }

  /** The sort is a permutation and its result is non-increasing by score. */
  lemma {:induction false} SortSortedPermutation(s: seq<Recommendation>)
    ensures SortedDesc(SortByScoreDesc(s))
    ensures multiset(SortByScoreDesc(s)) == multiset(s)
    ensures |SortByScoreDesc(s)| == |s|
  {
    if s != [] {
      var init := s[..|s| - 1];
      SortSortedPermutation(init);
      InsertSorted(s[|s| - 1], SortByScoreDesc(init));
      InsertPermutation(s[|s| - 1], SortByScoreDesc(init));
      assert s == init + [s[|s| - 1]];
    }
  }

  lemma {:induction false} ScoreClassAppend(a: seq<Recommendation>, b: seq<Recommendation>, v: real)
    ensures ScoreClass(a + b, v) == ScoreClass(a, v) + ScoreClass(b, v)
  {
    if b != [] {
      ScoreClassAppend(a, b[..|b| - 1], v);
      assert (a + b)[..|a + b| - 1] == a + b[..|b| - 1];
    } else {
      assert a + b == a;
    }
  }

  lemma {:induction false} ScoreClassBelow(s: seq<Recommendation>, v: real)
    requires forall e | e in s :: e.similarityScore < v
    ensures ScoreClass(s, v) == []
  {
    if s != [] {
      ScoreClassBelow(s[..|s| - 1], v);
      assert s[|s| - 1] in s;
    }
  }

  lemma ScoreClassSingleton(x: Recommendation, v: real)
    ensures ScoreClass([x], v) == if x.similarityScore == v then [x] else []
  {
    assert [x][..0] == [];
  }

  /** An element placed in front of a list whose scores are all below its own. */
  lemma InsertFrontKeepsClasses(x: Recommendation, s: seq<Recommendation>, v: real)
    requires SortedDesc(s)
    requires s != [] && s[0].similarityScore < x.similarityScore
    ensures ScoreClass([x] + s, v) == ScoreClass(s, v) + (if x.similarityScore == v then [x] else [])
  {
    ScoreClassSingleton(x, v);
    ScoreClassAppend([x], s, v);
    if x.similarityScore == v {
      forall e | e in s ensures e.similarityScore < v {
        var k :| 0 <= k < |s| && s[k] == e;
        assert s[0].similarityScore >= s[k].similarityScore;
      }
      ScoreClassBelow(s, v);
    }
  }

  lemma ScoreClassCons(y: Recommendation, t: seq<Recommendation>, v: real)
    ensures ScoreClass([y] + t, v) == (if y.similarityScore == v then [y] else []) + ScoreClass(t, v)
  {
    ScoreClassAppend([y], t, v);
    ScoreClassSingleton(y, v);
  }

  lemma ScoreClassHead(s: seq<Recommendation>, v: real)
    requires s != []
    ensures ScoreClass(s, v) == (if s[0].similarityScore == v then [s[0]] else []) + ScoreClass(s[1..], v)
  {
    ScoreClassCons(s[0], s[1..], v);
    assert [s[0]] + s[1..] == s;
  }

  lemma SortedTail(s: seq<Recommendation>)
    requires SortedDesc(s) && s != []
    ensures SortedDesc(s[1..])
  {
    forall i, j | 0 <= i < j < |s[1..]| ensures s[1..][i].similarityScore >= s[1..][j].similarityScore {
      assert s[1..][i] == s[i + 1] && s[1..][j] == s[j + 1];
    }
  }

  /** The element goes after the head: the head's class entry stays in front. */
  lemma InsertAfterKeepsClasses(x: Recommendation, s: seq<Recommendation>, v: real)
    requires s != [] && s[0].similarityScore >= x.similarityScore
    requires ScoreClass(InsertByScore(x, s[1..]), v)
          == ScoreClass(s[1..], v) + (if x.similarityScore == v then [x] else [])
    ensures ScoreClass(InsertByScore(x, s), v)
         == ScoreClass(s, v) + (if x.similarityScore == v then [x] else [])
  {
    var cx := if x.similarityScore == v then [x] else [];
    var c0 := if s[0].similarityScore == v then [s[0]] else [];
    var t := InsertByScore(x, s[1..]);
    var rest := ScoreClass(s[1..], v);
    assert InsertByScore(x, s) == [s[0]] + t;
    ScoreClassCons(s[0], t, v);
    ScoreClassHead(s, v);
    assert c0 + (rest + cx) == (c0 + rest) + cx;
  }

  lemma {:induction false} InsertKeepsClasses(x: Recommendation, s: seq<Recommendation>, v: real)
    requires SortedDesc(s)
    ensures ScoreClass(InsertByScore(x, s), v)
         == ScoreClass(s, v) + (if x.similarityScore == v then [x] else [])
  {
    if s == [] {
      ScoreClassSingleton(x, v);
    } else if s[0].similarityScore >= x.similarityScore {
      SortedTail(s);
      InsertKeepsClasses(x, s[1..], v);
      InsertAfterKeepsClasses(x, s, v);
    } else {
      assert InsertByScore(x, s) == [x] + s;
      InsertFrontKeepsClasses(x, s, v);
    }
  }

  /**
   * The sort is stable: the elements of any one score keep their relative
   * order (ties stay in query order).
   */
  lemma {:induction false} SortStable(s: seq<Recommendation>, v: real)
    ensures ScoreClass(SortByScoreDesc(s), v) == ScoreClass(s, v)
  {
    if s != [] {
      var init := s[..|s| - 1];
      SortStable(init, v);
      SortSortedPermutation(init);
      InsertKeepsClasses(s[|s| - 1], SortByScoreDesc(init), v);
    }
  }

  /** Every candidate is the entry of a visited user. */
  lemma {:induction false} CandidatesFromOthers(me: User, others: seq<User>, conns: map<int, Connection>, songs: seq<Song>)
    ensures forall e | e in Candidates(me, others, conns, songs) :: exists u | u in others :: e == Entry(me, u, songs)
  {
    if others != [] {
      var init := others[..|others| - 1];
      CandidatesFromOthers(me, init, conns, songs);
      forall e | e in Candidates(me, others, conns, songs) ensures exists u | u in others :: e == Entry(me, u, songs) {
        if e in Candidates(me, init, conns, songs) {
          var u :| u in init && e == Entry(me, u, songs);
          assert u in others;
        } else {
          assert others[|others| - 1] in others;
        }
      }
    }
  }

  /** Visiting one more user appends its entry exactly when the loop keeps it. */
  lemma CandidatesStep(me: User, others: seq<User>, conns: map<int, Connection>, songs: seq<Song>, i: nat)
    requires i < |others|
    ensures Candidates(me, others[..i + 1], conns, songs)
         == Candidates(me, others[..i], conns, songs)
            + (if Keep(me, others[i], conns) then [Entry(me, others[i], songs)] else [])
  {
    assert others[..i + 1][..i] == others[..i];
  }

  /** Every visited user the loop keeps has its entry among the candidates. */
  lemma {:induction false} CandidatesComplete(me: User, others: seq<User>, conns: map<int, Connection>, songs: seq<Song>, u: User)
    requires u in others && Keep(me, u, conns)
    ensures Entry(me, u, songs) in Candidates(me, others, conns, songs)
  {
    var init := others[..|others| - 1];
    if u != others[|others| - 1] {
      assert others == init + [others[|others| - 1]];
      assert u in init;
      CandidatesComplete(me, init, conns, songs, u);
    }
  }

  /** No two users share an id (the primary key of the users table). */
  predicate DistinctIds(users: seq<User>)
  {
    forall i, j | 0 <= i < j < |users| :: users[i].id != users[j].id
  }

  lemma {:induction false} OtherUsersDistinct(users: seq<User>, me: int)
    requires DistinctIds(users)
    ensures DistinctIds(OtherUsers(users, me))
  {
    if users != [] {
      var rest := OtherUsers(users[1..], me);
      assert DistinctIds(users[1..]) by {
        forall i, j | 0 <= i < j < |users[1..]| ensures users[1..][i].id != users[1..][j].id {
          assert users[1..][i] == users[i + 1] && users[1..][j] == users[j + 1];
        }
      }
      OtherUsersDistinct(users[1..], me);
      if users[0].id != me {
        var r := [users[0]] + rest;
        forall i, j | 0 <= i < j < |r| ensures r[i].id != r[j].id {
          if i == 0 {
            assert r[j] in rest;
            var k :| 0 <= k < |users[1..]| && users[1..][k] == r[j];
            assert users[k + 1] == r[j];
          } else {
            assert r[i] == rest[i - 1] && r[j] == rest[j - 1];
          }
        }
      }
    }
  }

  /** Every entry occurs once and no two entries share a user. */
  predicate OnePerUser(s: seq<Recommendation>)
  {
    && (forall e | e in s :: multiset(s)[e] == 1)
    && (forall e1, e2 | e1 in s && e2 in s && e1.userId == e2.userId :: e1 == e2)
  }

  /** The users before the last in a list with distinct ids have distinct ids, none the last one's. */
  lemma DistinctIdsInit(others: seq<User>)
    requires DistinctIds(others) && others != []
    ensures DistinctIds(others[..|others| - 1])
    ensures forall v | v in others[..|others| - 1] :: v.id != others[|others| - 1].id
  {
    var n := |others| - 1;
    forall v | v in others[..n] ensures v.id != others[n].id {
      var k :| 0 <= k < n && others[..n][k] == v;
      assert others[k] == v;
    }
  }

  /** Appending an entry whose user is not yet listed keeps each entry once and one per user. */
  lemma AppendNewUser(rest: seq<Recommendation>, x: Recommendation)
    requires OnePerUser(rest)
    requires forall e | e in rest :: e.userId != x.userId
    ensures OnePerUser(rest + [x])
  {
    var r := rest + [x];
    assert multiset(r) == multiset(rest) + multiset{x};
    forall e | e in r ensures multiset(r)[e] == 1 {
      if e != x {
        assert e in rest;
      }
    }
  }

  lemma {:induction false} CandidatesOnePerUser(me: User, others: seq<User>, conns: map<int, Connection>, songs: seq<Song>)
    requires DistinctIds(others)
    ensures OnePerUser(Candidates(me, others, conns, songs))
  {
    if others != [] {
      var n := |others| - 1;
      var init := others[..n];
      var u := others[n];
      DistinctIdsInit(others);
      CandidatesOnePerUser(me, init, conns, songs);
      var rest := Candidates(me, init, conns, songs);
      if Keep(me, u, conns) {
        CandidatesFromOthers(me, init, conns, songs);
        forall e | e in rest ensures e.userId != u.id {
          var v :| v in init && e == Entry(me, v, songs);
        }
        AppendNewUser(rest, Entry(me, u, songs));
      }
    }
  }

  /** A sequence with two equal entries at different places counts that entry twice. */
  lemma TwiceCounted(s: seq<Recommendation>, i: nat, j: nat)
    requires i < j < |s| && s[i] == s[j]
    ensures multiset(s)[s[i]] >= 2
  {
    assert s == s[..i] + [s[i]] + s[i + 1..j] + [s[j]] + s[j + 1..];
    assert multiset(s) == multiset(s[..i]) + multiset{s[i]} + multiset(s[i + 1..j]) + multiset{s[j]} + multiset(s[j + 1..]);
  }

  /** With each entry once and one entry per user, no two places hold the same user. */
  lemma OnePerUserDistinct(s: seq<Recommendation>)
    requires OnePerUser(s)
    ensures forall i, j | 0 <= i < j < |s| :: s[i].userId != s[j].userId
  {
    forall i, j | 0 <= i < j < |s| ensures s[i].userId != s[j].userId {
      if s[i].userId == s[j].userId {
        assert s[i] in s && s[j] in s;
        TwiceCounted(s, i, j);
      }
    }
  }

  /** Sorting and cutting keep each entry once and one entry per user. */
  lemma SortedPrefixOnePerUser(s: seq<Recommendation>, k: nat)
    requires OnePerUser(s) && k <= |SortByScoreDesc(s)|
    ensures OnePerUser(SortByScoreDesc(s)[..k])
  {
    var sorted := SortByScoreDesc(s);
    SortSortedPermutation(s);
    var r := sorted[..k];
    assert sorted == r + sorted[k..];
    assert multiset(sorted) == multiset(r) + multiset(sorted[k..]);
    forall e | e in r ensures e in s && multiset(r)[e] == 1 {
      assert e in multiset(sorted);
    }
  }

  /** The ranked list: candidates sorted by score, cut to `limit`. */
  function Ranked(me: User, users: seq<User>, conns: map<int, Connection>, songs: seq<Song>, limit: nat)
    : (r: seq<Recommendation>)
    ensures |r| == Min(limit, |Candidates(me, OtherUsers(users, me.id), conns, songs)|)
    ensures SortedDesc(r)
    ensures forall e | e in r :: e in Candidates(me, OtherUsers(users, me.id), conns, songs)
  {
    var sorted := SortByScoreDesc(Candidates(me, OtherUsers(users, me.id), conns, songs));
    var k := Min(limit, |sorted|);
    SortedPrefix(sorted, k);
    assert forall e | e in sorted[..k] :: e in multiset(sorted);
    sorted[..k]
  }

  lemma SortedPrefix(s: seq<Recommendation>, k: nat)
    requires SortedDesc(s) && k <= |s|
    ensures SortedDesc(s[..k])
  {
    forall i, j | 0 <= i < j < k ensures s[..k][i].similarityScore >= s[..k][j].similarityScore {
      assert s[..k][i] == s[i] && s[..k][j] == s[j];
    }
  }

  /** What every candidate satisfies, whatever its place after sorting. */
  lemma CandidateProperties(me: User, users: seq<User>, conns: map<int, Connection>, songs: seq<Song>, e: Recommendation)
    requires e in Candidates(me, OtherUsers(users, me.id), conns, songs)
    ensures && e.userId != me.id
            && !Connected(conns, me.id, e.userId)
            && e.similarityScore > 0.0
            && exists u | u in users :: u.id == e.userId && e == Entry(me, u, songs)
  {
    var others := OtherUsers(users, me.id);
    CandidatesFromOthers(me, others, conns, songs);
    var u :| u in others && e == Entry(me, u, songs);
  }

  /**
   * What the ranker promises: at most `limit` entries, highest score first,
   * never the requester, never a user connected to the requester in either
   * direction, never a zero score, each the entry of an existing user.
   */
  lemma RankedProperties(me: User, users: seq<User>, conns: map<int, Connection>, songs: seq<Song>, limit: nat)
    ensures var r := Ranked(me, users, conns, songs, limit);
      && |r| <= limit
      && SortedDesc(r)
      && forall e | e in r ::
           && e.userId != me.id
           && !Connected(conns, me.id, e.userId)
           && e.similarityScore > 0.0
           && exists u | u in users :: u.id == e.userId && e == Entry(me, u, songs)
  {
    var candidates := Candidates(me, OtherUsers(users, me.id), conns, songs);
    var sorted := SortByScoreDesc(candidates);
    SortSortedPermutation(candidates);
    var r := sorted[..Min(limit, |sorted|)];
    assert r == Ranked(me, users, conns, songs, limit);
    SortedPrefix(sorted, Min(limit, |sorted|));
    forall e | e in r
      ensures && e.userId != me.id && !Connected(conns, me.id, e.userId) && e.similarityScore > 0.0
              && exists u | u in users :: u.id == e.userId && e == Entry(me, u, songs)
    {
      assert e in multiset(sorted);
      CandidateProperties(me, users, conns, songs, e);
    }
  }

  /** The ranked list holds `limit` entries, or every candidate when there are fewer. */
  lemma RankedLength(me: User, users: seq<User>, conns: map<int, Connection>, songs: seq<Song>, limit: nat)
    ensures |Ranked(me, users, conns, songs, limit)|
         == Min(limit, |Candidates(me, OtherUsers(users, me.id), conns, songs)|)
  {
    SortSortedPermutation(Candidates(me, OtherUsers(users, me.id), conns, songs));
  }

  /** Every user the loop keeps is a candidate of the ranking. */
  lemma KeptUserIsCandidate(me: User, users: seq<User>, conns: map<int, Connection>, songs: seq<Song>, u: User)
    requires u in users && u.id != me.id && Keep(me, u, conns)
    ensures Entry(me, u, songs) in Candidates(me, OtherUsers(users, me.id), conns, songs)
  {
    CandidatesComplete(me, OtherUsers(users, me.id), conns, songs, u);
  }

  /** A candidate the cut leaves out scores no higher than any entry kept. */
  lemma RankedKeepsTheBest(me: User, users: seq<User>, conns: map<int, Connection>, songs: seq<Song>, limit: nat)
    ensures forall e, k | e in Candidates(me, OtherUsers(users, me.id), conns, songs)
                       && e !in Ranked(me, users, conns, songs, limit)
                       && k in Ranked(me, users, conns, songs, limit)
              :: e.similarityScore <= k.similarityScore
  {
    var candidates := Candidates(me, OtherUsers(users, me.id), conns, songs);
    var sorted := SortByScoreDesc(candidates);
    SortSortedPermutation(candidates);
    var n := Min(limit, |sorted|);
    var r := sorted[..n];
    forall e, k | e in candidates && e !in r && k in r ensures e.similarityScore <= k.similarityScore {
      assert e in multiset(sorted);
      var j :| 0 <= j < |sorted| && sorted[j] == e;
      var i :| 0 <= i < n && r[i] == k;
      assert sorted[i] == k;
    }
  }

  /** Given distinct user ids, the ranked list never names a user twice. */
  lemma RankedOnePerUser(me: User, users: seq<User>, conns: map<int, Connection>, songs: seq<Song>, limit: nat)
    requires DistinctIds(users)
    ensures var r := Ranked(me, users, conns, songs, limit);
            forall i, j | 0 <= i < j < |r| :: r[i].userId != r[j].userId
  {
    var candidates := Candidates(me, OtherUsers(users, me.id), conns, songs);
    OtherUsersDistinct(users, me.id);
    CandidatesOnePerUser(me, OtherUsers(users, me.id), conns, songs);
    SortSortedPermutation(candidates);
    SortedPrefixOnePerUser(candidates, Min(limit, |candidates|));
    OnePerUserDistinct(Ranked(me, users, conns, songs, limit));
  }

  /**
   * `get_recommendations`: visit every other user, keep the unconnected ones
   * with some overlap, sort by score (highest first, ties in query order)
   * and return at most `limit` of them.
   */
  method GetRecommendations(me: User, users: seq<User>, conns: map<int, Connection>, songs: seq<Song>, limit: int)
    returns (r: seq<Recommendation>)
    requires 1 <= limit <= 20
    ensures r == Ranked(me, users, conns, songs, limit)
    ensures |r| <= limit
    ensures SortedDesc(r)
    ensures forall e | e in r ::
      && e.userId != me.id
      && !Connected(conns, me.id, e.userId)
      && e.similarityScore > 0.0
      && exists u | u in users :: u.id == e.userId && e == Entry(me, u, songs)
  {
    var allUsers := OtherUsers(users, me.id);
    var recommendations: seq<Recommendation> := [];
    var i := 0;
    while i < |allUsers|
      invariant 0 <= i <= |allUsers|
      invariant recommendations == Candidates(me, allUsers[..i], conns, songs)
    {
      var u := allUsers[i];
      CandidatesStep(me, allUsers, conns, songs, i);
      var similarity := RecommendationScore(me, u);
      var existing := Connected(conns, me.id, u.id);
      if !existing && similarity > 0.0 {
        recommendations := recommendations + [Entry(me, u, songs)];
      }
      i := i + 1;
    }
    assert allUsers[..i] == allUsers;
    assert recommendations == Candidates(me, allUsers, conns, songs);
    recommendations := SortByScoreDesc(recommendations);
    r := recommendations[..Min(limit, |recommendations|)];
    assert r == Ranked(me, users, conns, songs, limit);
    RankedProperties(me, users, conns, songs, limit);
  }

  // ------------------------------------------------------- recent activity

  /** One entry of the feed's `recent_connections`. */
  datatype FeedEntry = FeedEntry(id: int, userId: int, similarityScore: Option<real>, createdAt: nat)

  /** The other side of a record the requester is part of. */
  function OtherParty(c: Connection, me: int): int
  {
    if c.userId != me then c.userId else c.connectedUserId
  }

  /**
   * `recent_connections` of `get_feed`: the requester's ACCEPTED records,
   * either side, at most `limit`, each projected to the other party.
   */
  function RecentConnections(conns: map<int, Connection>, bound: nat, me: int, limit: int)
    : (r: seq<FeedEntry>)
    requires 1 <= limit <= 50
    ensures |r| <= limit
    ensures |r| == Min(limit, |Connections.Listing(conns, bound, me, Connections.EitherParty, Some(Accepted))|)
    ensures forall i | 0 <= i < |r| ::
      var c := Connections.Listing(conns, bound, me, Connections.EitherParty, Some(Accepted))[i];
      r[i] == FeedEntry(c.id, OtherParty(c, me), c.similarityScore, c.createdAt)
    ensures forall e | e in r ::
      exists c | c in conns.Values && c.id == e.id ::
        && c.status == Accepted
        && (c.userId == me || c.connectedUserId == me)
        && {c.userId, c.connectedUserId} == {me, e.userId}
        && e.similarityScore == c.similarityScore
  {
    var rows := Connections.Listing(conns, bound, me, Connections.EitherParty, Some(Accepted));
    var recent := rows[..Min(limit, |rows|)];
    var r := seq(|recent|, i requires 0 <= i < |recent| =>
      FeedEntry(recent[i].id, OtherParty(recent[i], me), recent[i].similarityScore, recent[i].createdAt));
    assert forall e | e in r ::
      exists c | c in conns.Values && c.id == e.id ::
        && c.status == Accepted
        && (c.userId == me || c.connectedUserId == me)
        && {c.userId, c.connectedUserId} == {me, e.userId}
        && e.similarityScore == c.similarityScore
    by {
      forall e | e in r
        ensures exists c | c in conns.Values && c.id == e.id ::
          && c.status == Accepted
          && (c.userId == me || c.connectedUserId == me)
          && {c.userId, c.connectedUserId} == {me, e.userId}
          && e.similarityScore == c.similarityScore
      {
        var i :| 0 <= i < |r| && r[i] == e;
        assert recent[i] in rows;
      }
    }
    r
  }

  /** A feed entry names the requester only for a request the requester sent to themself. */
  lemma OtherPartyIsNotMe(c: Connection, me: int)
    requires c.userId == me || c.connectedUserId == me
    ensures OtherParty(c, me) == me <==> c.userId == me && c.connectedUserId == me
    ensures OtherParty(c, me) == c.userId || OtherParty(c, me) == c.connectedUserId
  {
  }
}
