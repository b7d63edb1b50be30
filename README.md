# InTune matching core in Dafny

InTune is a music-matching social app. Users list their top genres and
favourite artists and keep a library of songs. The backend scores how
similar two users' tastes are. It lets a user send a connection request
to another user, and lets the target accept or reject it. It lists and
counts a user's requests, recommends users to connect with, and shows
recently accepted connections in a feed. A D3 dashboard draws a graph
from a CSV of pairwise similarity scores.

This project models that core and proves properties of it:

- `wrappers.dfy` (`Wrappers`): `Option`, `Result`, and `Patch` (a field of a partial update, either left out or supplied).
- `models.dfy` (`Models`): the user and song rows, restricted to the fields the core reads.
- `similarity.dfy` (`Similarity`): `calculate_similarity_score`.
  - Three Jaccard ratios (genres, artists, lower-cased (title, artist) song pairs), weighted 0.3 / 0.4 / 0.3.
  - The sum is rounded half to even at two decimals.
  - Scores are exact reals.
- `connection_model.dfy` (`ConnectionModel`): the connection status enum, the connection row, and the width of the message column.
- `connections.dfy` (`Connections`): the request handlers.
  - `ConnectionStore` is a class holding the users table, the songs table and the connections table (a map from id to row).
  - Its methods `CreateConnection` and `UpdateConnection` change those tables in place.
  - The two listings and the statistics are functions over the table.
- `feed.dfy` (`Feed`): the recommendation ranker and the `recent_connections` projection of the feed.
  - The ranker is a method with the source's loop.
  - Its stable descending sort is a functional insertion sort, with permutation, order and stability proved.
- `dashboard.dfy` (`Dashboard`): the dashboard's `processData` and `toggleNodeSelection`.
  - They are methods of a `Graph` class holding the page's `graphData` and `selectedNodes`.
  - Each loop of `processData` (collecting users, creating nodes, counting links, sizing nodes, collecting connected ids) is a method with its invariants, proved against specification functions.
  - The two `.filter` passes and the `.map` to ids at the end of `processData` are the functions `KeepNodes`, `KeepLinks` and `NodeIds`.
- `init_db.dfy` (`InitDb`): the database-URL classifier of the initialisation script.

In `ConnectionStore` the users table and the connections table are maps
keyed by id; the songs table is a sequence of rows, and the ranker takes
the users table as a sequence in query order. A store clock stands
for the server-side `created_at` timestamp, and ids are handed out in
creation order. A listing therefore takes a `bound` (the next id the
table hands out) and walks the ids downward: "newest first" becomes
"decreasing id".

Where the code's behaviour is surprising, the model follows the code:

- creating a request to oneself is not refused;
- the reverse direction of an existing request is not refused;
- an update does not check the current status, so accepting an already accepted request counts again;
- a caller who is not the target of a request gets "Connection not found", not a permission error.

## Model

| member | source | states |
|---|---|---|
| Models.SetOfSize | backend/app/services/similarity.py:22-26 | building a set from a list never yields more elements than the list has |
| Similarity.Lower | backend/app/services/similarity.py:29-30 | lower-casing keeps the length, leaves no upper-case letter, changes only upper-case letters and turns each one into its lower-case letter (code point plus 32) |
| Similarity.UserSongs | backend/app/services/similarity.py:18-19 | the songs query returns exactly the songs whose owner is the user, favourite or not |
| Similarity.NoSongsOfUser | backend/app/services/similarity.py:18-30 | a user who owns no song has an empty song set |
| Similarity.Jaccard | backend/app/services/similarity.py:38-40 | each category ratio lies in [0, 1]; it is 0 (not a division by zero) for two empty sets, and 0 exactly when the sets share nothing |
| Similarity.RoundHalfEven | backend/app/services/similarity.py:49 | the chosen integer is within one half of the value, and the even one on a tie |
| Similarity.Round2 | backend/app/services/similarity.py:49 | the result is a whole number of hundredths, at most half a hundredth from the value, and on a tie the even hundredth; so it moves a value by at most 0.005 and keeps [0, 1] inside [0, 1] |
| Similarity.Round2Exact | backend/app/services/similarity.py:49 | a whole number of hundredths is left unchanged by the rounding |
| Similarity.WeightedSum | backend/app/services/similarity.py:43-47 | the 0.3 / 0.4 / 0.3 weighted sum of the three ratios lies in [0, 1] |
| Similarity.Score | backend/app/services/similarity.py:43-49 | the rounded score of two profiles lies in [0, 1] |
| Similarity.CalculateSimilarityScore | backend/app/services/similarity.py:9-49 | the score of two users, computed from their lists and the songs table, lies in [0, 1] |
| Similarity.ScoreSymmetric | backend/app/services/similarity.py:33-49 | the score of two profiles does not depend on their order |
| Similarity.CalculateSimilarityScoreSymmetric | backend/app/services/similarity.py:9-49 | score(u1, u2) == score(u2, u1) for all users and song tables |
| Similarity.EmptyProfilesScoreZero | backend/app/services/similarity.py:22-49 | two users with no genres, no artists and no songs score exactly 0 |
| Similarity.JaccardSelf | backend/app/services/similarity.py:38-40 | a set against itself has ratio 1, or 0 when it is empty |
| Similarity.SelfScore | backend/app/services/similarity.py:38-49 | a profile against itself scores the total weight of its non-empty categories |
| Similarity.SelfScoreIsOneIffComplete | backend/app/services/similarity.py:38-49 | a profile scores 1.0 against itself if and only if all three of its categories are non-empty |
| Similarity.GenresOnlySelfScore | backend/app/services/similarity.py:38-49 | a profile with genres only scores 0.3 against itself |
| Similarity.AllSongsCount | backend/app/services/similarity.py:18-30 | every song the user owns contributes its lower-cased (title, artist) pair to the song set |
| Similarity.DuplicateGenreIgnored | backend/app/services/similarity.py:22-23 | repeating a genre already listed leaves calculate_similarity_score against any user unchanged (the ranker's own score does change, see Feed.RepeatedGenreLowersRecommendationScore) |
| Similarity.HalfOverlap | backend/app/services/similarity.py:38-39 | a two-element set against one of its elements has ratio 1/2 |
| Similarity.WorkedExample | backend/app/services/similarity.py:9-49 | {pop, rock}/{X, Y} against {pop}/{X} with no songs scores 0.35 |
| Similarity.GenresCaseSensitive | backend/app/services/similarity.py:22-23 | genres are compared as written: "Pop" and "pop" share nothing |
| Similarity.LowerEqualIff | backend/app/services/similarity.py:29-30 | two strings lower-case to the same string exactly when they have the same length and agree place by place up to ASCII case |
| Similarity.SongsCaseInsensitive | backend/app/services/similarity.py:29-30 | two songs have the same (title, artist) key exactly when their titles and their artists differ only in ASCII case |
| Similarity.SongsCaseInsensitiveExample | backend/app/services/similarity.py:29-30 | "Yellow" by "Coldplay" and "YELLOW" by "coldplay" are the same song |
| Connections.ApplyUpdate | backend/app/api/routes/connections.py:119-121 | an update assigns exactly the supplied fields, and every other field of the row is unchanged |
| Connections.RecordAcceptance | backend/app/api/routes/connections.py:124-126 | acceptance adds one to the initiator's connections_made and one to the target's likes_received; no other user and no other field changes |
| Connections.ReacceptCountsTwice | backend/app/api/routes/connections.py:124-126 | with no guard on the prior status, accepting the same request twice adds two to each counter, a request to oneself included |
| Connections.InsertKeepsInvariant | backend/app/api/routes/connections.py:48-59 | inserting a row stamped with the next id and the clock, between existing users and with a message that fits, keeps the table invariant (keys, creation order, known users) |
| Connections.ReplaceKeepsInvariant | backend/app/api/routes/connections.py:119-128 | replacing a row by one that differs only in status and score, and the users by a table with the same ids, keeps the table invariant |
| Connections.ConnectionStore.CreateConnection | backend/app/api/routes/connections.py:18-61 | the errors come in the source's order: unknown target, then an existing request for the same ordered pair in any status, then a message wider than the column; on success exactly one new PENDING row is added under a fresh id, holding the two users' similarity score at that moment; the table invariant is kept |
| Connections.ConnectionStore.UpdateConnection | backend/app/api/routes/connections.py:100-130 | a caller who is not the target, or an unknown id, gets ConnectionNotFound and nothing changes; otherwise the row becomes the update of the old row and the counters move exactly when the status supplied is ACCEPTED; the table invariant is kept |
| Connections.Listing | backend/app/api/routes/connections.py:71-78 | a listing holds only stored rows that pass the filters, and every such row stored under an id below the bound |
| Connections.MyConnections | backend/app/api/routes/connections.py:64-79 | /me returns exactly the rows the caller initiated, with the status filter when one is given |
| Connections.ReceivedConnections | backend/app/api/routes/connections.py:82-97 | /received returns exactly the rows targeting the caller, with the status filter when one is given |
| Connections.ListingStored | backend/app/api/routes/connections.py:71-78 | every listed row is stored under its own id, which lies below the bound |
| Connections.ListingIdsDescending | backend/app/api/routes/connections.py:78 | the ids strictly decrease along a listing |
| Connections.ListingNewestFirst | backend/app/api/routes/connections.py:78 | created_at strictly decreases along a listing |
| Connections.Stats | backend/app/api/routes/connections.py:154-160 | likes_received and connections_made are the caller's own counters |
| Connections.ListingLength | backend/app/api/routes/connections.py:71-78 | a listing has as many entries as there are rows passing the filters |
| Connections.StatsMatchListings | backend/app/api/routes/connections.py:133-160 | total_connections, pending_sent and pending_received are the lengths of /me?status=accepted, /me?status=pending and /received?status=pending |
| Connections.DuplicateIsDirectional | backend/app/api/routes/connections.py:32-61 | on a two-user store, repeating a request is refused with ConnectionAlreadyExists, but the reverse direction is accepted |
| Connections.AcceptTwice | backend/app/api/routes/connections.py:100-130 | the initiator updating their own request gets ConnectionNotFound, and the target accepting it twice leaves both counters at 2 |
| Feed.OverlapRatio | backend/app/api/routes/feed.py:72-74 | the ratio is non-negative, at most 1 when the count is at most the listed total, and 0 exactly when the count is 0 |
| Feed.RecommendationScore | backend/app/api/routes/feed.py:69-74 | the ranker's score lies in [0, 1] and is 0 exactly when no genre and no artist is shared |
| Feed.RecommendationScoreAsymmetric | backend/app/api/routes/feed.py:72-74 | the ranker's score divides by the requester's list lengths, so ["pop"] against ["pop", "rock"] gives 1.0 one way and 0.5 the other |
| Feed.RepeatedGenreLowersRecommendationScore | backend/app/api/routes/feed.py:72-74 | the ranker divides by the requester's list length with duplicates: ["pop", "pop"] against ["pop"] scores 0.5, ["pop"] against ["pop"] 1.0 |
| Feed.FavoriteSongs | backend/app/api/routes/feed.py:95-97 | the favourites query returns exactly the favourite songs of that user |
| Feed.TopSongs | backend/app/api/routes/feed.py:89-98 | top_songs is the first min(3, n) of the user's n favourite songs |
| Feed.EntryExplainsScore | backend/app/api/routes/feed.py:69-88 | an entry's common_genres and common_artists are the set intersections, and its score is exactly their count over the requester's list lengths |
| Feed.OtherUsers | backend/app/api/routes/feed.py:64 | the users query returns exactly the users other than the requester |
| Feed.Candidates | backend/app/api/routes/feed.py:66-100 | the loop keeps at most as many entries as users it visits, each with a positive score and no connection with the requester in either direction |
| Feed.CandidatesComplete | backend/app/api/routes/feed.py:66-100 | every visited user that is unconnected and has a positive score has its entry kept |
| Feed.OtherUsersDistinct | backend/app/api/routes/feed.py:64 | the users query keeps user ids distinct |
| Feed.CandidatesOnePerUser | backend/app/api/routes/feed.py:66-100 | over users with distinct ids, the loop keeps each entry once and at most one entry per user |
| Feed.TwiceCounted | backend/app/api/routes/feed.py:66-100 | an entry at two places of a list is counted twice in its multiset |
| Feed.OnePerUserDistinct | backend/app/api/routes/feed.py:66-100 | a list holding each entry once and one entry per user has no user at two places |
| Feed.SortedPrefixOnePerUser | backend/app/api/routes/feed.py:103-104 | sorting and slicing keep each entry once and one entry per user |
| Feed.CandidatesFromOthers | backend/app/api/routes/feed.py:66-100 | every kept entry is the entry of a user the loop visited |
| Feed.InsertPermutation | backend/app/api/routes/feed.py:103 | inserting adds exactly the one element |
| Feed.InsertSorted | backend/app/api/routes/feed.py:103 | inserting into a non-increasing list keeps it non-increasing |
| Feed.SortByScoreDesc | backend/app/api/routes/feed.py:103 | the sort returns a permutation of its input of the same length, non-increasing by score |
| Feed.SortSortedPermutation | backend/app/api/routes/feed.py:103 | the sort returns a permutation of its input, non-increasing by score |
| Feed.InsertFrontKeepsClasses | backend/app/api/routes/feed.py:103 | an element placed in front of lower scores joins the end of its score class |
| Feed.InsertAfterKeepsClasses | backend/app/api/routes/feed.py:103 | an element inserted past the head keeps the head's place in its class |
| Feed.InsertKeepsClasses | backend/app/api/routes/feed.py:103 | inserting places the element after every element with its score |
| Feed.SortStable | backend/app/api/routes/feed.py:103 | the sort is stable: the entries with any one score stay in query order |
| Feed.CandidateProperties | backend/app/api/routes/feed.py:64-100 | every candidate is another user, unconnected to the requester in either direction, with a positive score, built from an existing user |
| Feed.RankedProperties | backend/app/api/routes/feed.py:56-104 | the result has at most limit entries, highest score first; no entry is the requester, a user connected either way, or a zero score; each entry is built from an existing user |
| Feed.Ranked | backend/app/api/routes/feed.py:56-104 | the ranking holds min(limit, number of candidates) entries, non-increasing by score, each of them a candidate |
| Feed.RankedLength | backend/app/api/routes/feed.py:103-104 | the result has min(limit, number of candidates) entries |
| Feed.KeptUserIsCandidate | backend/app/api/routes/feed.py:64-100 | every other user, unconnected to the requester and with a positive score, is a candidate of the ranking |
| Feed.RankedKeepsTheBest | backend/app/api/routes/feed.py:103-104 | a candidate the slice leaves out scores no higher than any entry returned |
| Feed.RankedOnePerUser | backend/app/api/routes/feed.py:56-104 | when user ids are distinct, no user appears twice in the result |
| Feed.GetRecommendations | backend/app/api/routes/feed.py:56-104 | the loop, the sort and the slice return the ranked list, with every property above |
| Feed.RecentConnections | backend/app/api/routes/feed.py:24-43 | min(limit, n) entries, n being the number of the requester's ACCEPTED rows on either side; the i-th entry is the i-th of those rows, newest first, projected to its id, the other party, its score and its creation time; so each entry comes from an ACCEPTED row the requester is part of, names the other party and carries the row's score |
| Feed.OtherPartyIsNotMe | backend/app/api/routes/feed.py:38 | the projected user_id is one of the row's two users, and it is the requester only on a request to oneself |
| Dashboard.GroupOf | frontend/WIC_Project_Teams_InTune/dashboard.js:55-59 | the colour group of the counter-th node, counting from 1 as the group counter does, is ((counter - 1) % 4) + 1 and lies in 1..4 |
| Dashboard.PositiveLinks | frontend/WIC_Project_Teams_InTune/dashboard.js:72-95 | every new link has a positive similarity, and there is at most one link per row |
| Dashboard.NodeValue | frontend/WIC_Project_Teams_InTune/dashboard.js:98-101 | node size lies in 8..28 and is 28 from ten connections up |
| Dashboard.BuiltNodes | frontend/WIC_Project_Teams_InTune/dashboard.js:55-104 | there is one node per distinct user, each with a group in 1..4 and a value in 8..28 |
| Dashboard.KeepNodes | frontend/WIC_Project_Teams_InTune/dashboard.js:117 | the node filter keeps exactly the nodes whose id is connected |
| Dashboard.KeepLinks | frontend/WIC_Project_Teams_InTune/dashboard.js:120-125 | the link filter keeps exactly the links with both endpoints shown |
| Dashboard.Toggled | frontend/WIC_Project_Teams_InTune/dashboard.js:381-386 | toggling flips the membership of that id and no other |
| Dashboard.FirstSeenUsers | frontend/WIC_Project_Teams_InTune/dashboard.js:44-52 | the user order has no repeats and holds exactly the users appearing in some row |
| Dashboard.GroupsCycle | frontend/WIC_Project_Teams_InTune/dashboard.js:55-59 | the k-th node in first-seen order has group (k % 4) + 1, the same as the node four places earlier |
| Dashboard.DegreeCountsRows | frontend/WIC_Project_Teams_InTune/dashboard.js:78-85 | a node's connectionCount is the number of positive rows where it is user_1 plus the number where it is user_2 |
| Dashboard.OneLinkPerPositiveRow | frontend/WIC_Project_Teams_InTune/dashboard.js:78-94 | there is exactly one new link per row with a positive similarity |
| Dashboard.EndpointIffDegree | frontend/WIC_Project_Teams_InTune/dashboard.js:78-114 | a user is touched by a new link if and only if its connectionCount is positive |
| Dashboard.PositiveLinkFromRow | frontend/WIC_Project_Teams_InTune/dashboard.js:88-93 | every new link is the link of some row |
| Dashboard.Processed | frontend/WIC_Project_Teams_InTune/dashboard.js:42-128 | the nodes left are exactly the built nodes that some old or new link touches; the links left are exactly the old and new links whose two ends are both among those nodes |
| Dashboard.LinksStayClosed | frontend/WIC_Project_Teams_InTune/dashboard.js:117-125 | after filtering, both endpoints of every kept link are kept nodes |
| Dashboard.BuiltNodeIds | frontend/WIC_Project_Teams_InTune/dashboard.js:56-104 | each built node is a seen user carrying its positive-row count, and every seen user has a node |
| Dashboard.KeptIffPositive | frontend/WIC_Project_Teams_InTune/dashboard.js:78-117 | on a first load, a built node is touched by a link if and only if its count is positive |
| Dashboard.LinkEndsHaveNodes | frontend/WIC_Project_Teams_InTune/dashboard.js:44-93 | both endpoints of every new link have a built node |
| Dashboard.FirstLoadHasNoIsolatedNodes | frontend/WIC_Project_Teams_InTune/dashboard.js:42-125 | on a first load, the kept nodes are exactly those with a positive count, and every kept node touches a kept link |
| Dashboard.ToggleTwice | frontend/WIC_Project_Teams_InTune/dashboard.js:381-386 | toggling the same id twice restores the selection |
| Dashboard.CollectUsers | frontend/WIC_Project_Teams_InTune/dashboard.js:44-52 | the first pass returns the first-seen order of the users, without repeats |
| Dashboard.CreateNodes | frontend/WIC_Project_Teams_InTune/dashboard.js:54-69 | the loop creates one node per user with the cyclic group, value 10 and count 0 |
| Dashboard.CountRowStep | frontend/WIC_Project_Teams_InTune/dashboard.js:78-85 | counting one more positive row on both its endpoints, when present, keeps every count equal to the degree over the rows seen |
| Dashboard.CountLinks | frontend/WIC_Project_Teams_InTune/dashboard.js:71-95 | the second pass appends the positive links to the existing ones and sets each node's count to its positive-row degree, changing nothing else |
| Dashboard.SizeNodes | frontend/WIC_Project_Teams_InTune/dashboard.js:97-101 | each node's value becomes 8 + min(2 * count, 20), and nothing else changes |
| Dashboard.NodesInOrder | frontend/WIC_Project_Teams_InTune/dashboard.js:104 | the nodes come back in the order their users were inserted |
| Dashboard.NodesBuilt | frontend/WIC_Project_Teams_InTune/dashboard.js:54-104 | the three passes over the node map build exactly one node per user in first-seen order, with the cyclic group, the degree and the size from it |
| Dashboard.BuildNodes | frontend/WIC_Project_Teams_InTune/dashboard.js:42-104 | the node passes return the built nodes, and the existing links followed by the positive links |
| Dashboard.ConnectedIds | frontend/WIC_Project_Teams_InTune/dashboard.js:108-114 | the loop collects exactly the endpoints of all links |
| Dashboard.Graph.ProcessData | frontend/WIC_Project_Teams_InTune/dashboard.js:42-128 | graphData becomes the filtered nodes and links built from the rows and the links already there; the selection is unchanged |
| Dashboard.Graph.ToggleNodeSelection | frontend/WIC_Project_Teams_InTune/dashboard.js:381-389 | the selection becomes the toggled selection, and the graph is unchanged |
| InitDb.DetectDatabaseBackend | backend/init_db.py:15-21 | the result is "sqlite", "postgresql" or "other"; it is "sqlite" iff the URL starts with "sqlite", "postgresql" iff it otherwise starts with "postgres", and "other" iff neither |
| InitDb.DetectExamples | backend/init_db.py:15-21 | postgresql:// and postgres:// URLs are "postgresql", a sqlite URL is "sqlite", and empty or mysql URLs are "other" |

## Left out

- Similarity.Lower: lower-cases the ASCII letters only, where Python's `str.lower` lower-cases all of Unicode.
- Similarity.Round2: exact reals replace IEEE doubles. The weighted sum and `round(x, 2)` are modelled without binary floating-point error, so a score at a rounding tie may differ in the last hundredth from what the program computes.
- Connections.ConnectionStore.CreateConnection: a message wider than the 500-character column is refused with `MessageTooLong`. The handler itself does not check it; what a real database does with such a message depends on the backend, and SQLite stores it anyway.
- Connections.ListingNewestFirst: creation times are distinct store clock readings, so newest first is a strict order. The server clock (`func.now()`, one-second resolution in SQLite) can give two rows the same `created_at`, and the order of such rows is left to the database.
- The column default PENDING of `status` (backend/app/models/connection.py:29) is not modelled: the create handler always passes PENDING, so no core operation relies on the default.
- Connections.ConnectionStore.CreateConnection: the foreign-key check on `recommended_song_id` is not modelled; any song id is stored as given.
- Connections.ConnectionStore.UpdateConnection: an explicit JSON `null` for `status` (which would store a NULL status) is not modelled; a supplied status is one of the four values.
- Feed.RecentConnections: lists the newest-created rows first, where the source orders by `updated_at`. Acceptance times are not modelled, so the model orders by creation.
- Feed.RecentConnections: `created_at` is a store clock reading, not an ISO date string.
- Feed.TopSongs: the first three favourites in table order, where the database returns them in an unspecified order; only the id, title and artist are returned in the source.
- Feed.GetRecommendations: `common_genres` and `common_artists` are sets; the source turns each set into a list in an unspecified order.
- Feed.GetRecommendations and Feed.RecentConnections: the limit range checks of the query parameters are preconditions; the framework's 422 response to an out-of-range limit is not modelled.
- Feed.GetRecommendations: `list.sort` sorts in place; the model sorts a value with a proved stable insertion sort.
- The `recommended_users` part of `get_feed` (the first ten other users, unranked) is not modelled.
- Dashboard.Graph.ProcessData: `parseFloat` of the CSV text is not modelled; each row carries the parsed number as a real, and a row whose text does not parse (NaN) is a row with similarity 0.
- Dashboard.Graph.ProcessData: D3 replacing a link's `source` and `target` strings by node objects is not modelled, so the id lookups on lines 110-111 and 122-123 always take the string branch.
- Dashboard.Graph.ProcessData: the loops of `processData` are modelled one method each and its final filters and map as functions, used in the order the function runs them; the node map is a value passed between them rather than one shared mutable `Map`.
- Dashboard.Graph.ToggleNodeSelection: the redraw calls `updateNodeStyles` and `updateStats` are not modelled.
- The initialisation script's table creation and printing, authentication, the other routes, the React pages and the rest of the dashboard (rendering, layout, force simulation, search, sample data) are not part of this model.
- Database transactions, concurrency and clocks: each handler runs as one atomic step on the store.
