/** The leaderboard page: loading the picks and the scores (live feed first, a
    static snapshot as fallback), joining each participant's picks with the golfer
    scores, ranking the participants by total, and the table the page shows. */
module Leaderboard {
  import opened Wrappers
  import opened Sorting
  import opened Strings

  // ---------------------------------------------------------------------------
  // Data model
  // ---------------------------------------------------------------------------

  /** A participant's selection of one golfer, by the golfer's id. */
  datatype Pick = Pick(golferId: string)

  datatype Participant = Participant(name: string, picks: seq<Pick>)

  /** The picks document. */
  datatype PicksDoc = PicksDoc(participants: seq<Participant>)

  /** One golfer's standing; `score` is strokes relative to par (lower is better). */
  datatype GolferScore = GolferScore(name: string, score: int, position: string, thru: string)

  /** The scores document: tournament fields and the golfer-id -> score map. */
  datatype ScoresDoc = ScoresDoc(
    lastUpdated: Option<string>,
    tournamentStatus: Option<string>,
    currentRound: Option<string>,
    scores: map<string, GolferScore>)

  /** One standings entry: the participant's name, the sum of the resolved picks'
      scores, the resolved golfer records, and the participant's picks. */
  datatype Entry = Entry(participant: string, totalScore: int, golfers: seq<GolferScore>, picks: seq<Pick>)

  // The live feed, as far as the mapping reads it. An absent or non-numeric
  // `total_strokes` is `None`.
  datatype ApiTournament = ApiTournament(status: Option<string>, round: Option<string>)
  datatype ApiPlayer = ApiPlayer(
    id: string, firstName: string, lastName: string,
    totalStrokes: Option<int>, thru: Option<string>, currentPosition: Option<string>)
  datatype ApiData = ApiData(tournament: Option<ApiTournament>, player: Option<seq<ApiPlayer>>)

  // ---------------------------------------------------------------------------
  // Mapping the live feed
  // ---------------------------------------------------------------------------

  /** `value || fallback` for a string that may be absent: absent and empty strings are falsy. */
  function OrDefault(value: Option<string>, fallback: string): string
  {
    if value.Some? && value.value != "" then value.value else fallback
  }

  function TournamentStatus(api: ApiData): Option<string>
  {
    if api.tournament.Some? then api.tournament.value.status else None
  }

  function TournamentRound(api: ApiData): Option<string>
  {
    if api.tournament.Some? then api.tournament.value.round else None
  }

  /** The players of the feed; an absent `player` field gives none. */
  function Players(api: ApiData): seq<ApiPlayer>
  {
    if api.player.Some? then api.player.value else []
  }

  /** The internal record of one feed player, with the defaults for missing fields. */
  function PlayerRecord(p: ApiPlayer): (g: GolferScore)
    ensures g.name == p.firstName + " " + p.lastName
    ensures p.totalStrokes.None? ==> g.score == 0
    ensures p.totalStrokes.Some? ==> g.score == p.totalStrokes.value
    ensures g.thru == "F" <==> (p.thru.None? || p.thru.value in {"", "F"})
    ensures g.position == "-" <==> (p.currentPosition.None? || p.currentPosition.value in {"", "-"})
    ensures p.thru.Some? && p.thru.value != "" ==> g.thru == p.thru.value
    ensures p.currentPosition.Some? && p.currentPosition.value != "" ==> g.position == p.currentPosition.value
  {
    GolferScore(
      p.firstName + " " + p.lastName,
      if p.totalStrokes.Some? then p.totalStrokes.value else 0,
      OrDefault(p.currentPosition, "-"),
      OrDefault(p.thru, "F"))
  }

  /** The score map built by keying each player by id, in order, so that a later
      player with the same id overwrites an earlier one. */
  function PlayerMap(ps: seq<ApiPlayer>): map<string, GolferScore>
  {
    if ps == [] then map[]
    else PlayerMap(ps[..|ps| - 1])[ps[|ps| - 1].id := PlayerRecord(ps[|ps| - 1])]
  }

  /** No player after index `i` has the id of player `i`. */
  ghost predicate LastWithId(ps: seq<ApiPlayer>, i: int)
    requires 0 <= i < |ps|
  {
    forall j | i < j < |ps| :: ps[j].id != ps[i].id
  }

  /** The internal scores document the feed maps to, stamped with the time `now`. */
  function ScoresFromFeed(api: ApiData, now: string): (doc: ScoresDoc)
    ensures doc.lastUpdated == Some(now)
    ensures doc.tournamentStatus.Some? && doc.tournamentStatus.value != ""
    ensures doc.currentRound.Some? && doc.currentRound.value != ""
    ensures TournamentStatus(api).Some? && TournamentStatus(api).value != "" ==>
              doc.tournamentStatus == TournamentStatus(api)
    ensures TournamentRound(api).Some? && TournamentRound(api).value != "" ==>
              doc.currentRound == TournamentRound(api)
    ensures api.player.None? ==> doc.scores == map[]
  {
    ScoresDoc(
      Some(now),
      Some(OrDefault(TournamentStatus(api), "In Progress")),
      Some(OrDefault(TournamentRound(api), "Round 1")),
      PlayerMap(Players(api)))
  }

  /** The score map has exactly one key per distinct player id. */
  lemma {:induction false} PlayerMapKeys(ps: seq<ApiPlayer>)
    ensures PlayerMap(ps).Keys == set p | p in ps :: p.id
  {
    if ps != [] {
      var init := ps[..|ps| - 1];
      PlayerMapKeys(init);
      assert ps == init + [ps[|ps| - 1]];
      assert (set p | p in ps :: p.id) == (set p | p in init :: p.id) + {ps[|ps| - 1].id};
    }
  }

  /** Last writer wins: each id maps to the record of the last player carrying it. */
  lemma {:induction false} PlayerMapLastWins(ps: seq<ApiPlayer>, i: int)
    requires 0 <= i < |ps| && LastWithId(ps, i)
    ensures ps[i].id in PlayerMap(ps)
    ensures PlayerMap(ps)[ps[i].id] == PlayerRecord(ps[i])
  {
    var n := |ps| - 1;
    if i < n {
      var init := ps[..n];
      assert LastWithId(init, i) by {
        forall j | i < j < |init| ensures init[j].id != init[i].id {
          assert init[j] == ps[j];
        }
      }
      PlayerMapLastWins(init, i);
      assert ps[n].id != ps[i].id;
    }
  }

  /** The mapped document: the given time, the tournament defaults, and one score per player id. */
  lemma FeedMapping(api: ApiData, now: string)
    ensures ScoresFromFeed(api, now).lastUpdated == Some(now)
    ensures ScoresFromFeed(api, now).tournamentStatus.Some?
    ensures ScoresFromFeed(api, now).currentRound.Some?
    ensures TournamentStatus(api) in {None, Some("")} ==> ScoresFromFeed(api, now).tournamentStatus == Some("In Progress")
    ensures TournamentStatus(api) !in {None, Some("")} ==> ScoresFromFeed(api, now).tournamentStatus == TournamentStatus(api)
    ensures TournamentRound(api) in {None, Some("")} ==> ScoresFromFeed(api, now).currentRound == Some("Round 1")
    ensures TournamentRound(api) !in {None, Some("")} ==> ScoresFromFeed(api, now).currentRound == TournamentRound(api)
    ensures api.player.None? ==> ScoresFromFeed(api, now).scores == map[]
    ensures ScoresFromFeed(api, now).scores.Keys == set p | p in Players(api) :: p.id
    ensures forall i | 0 <= i < |Players(api)| && LastWithId(Players(api), i) ::
              ScoresFromFeed(api, now).scores[Players(api)[i].id] == PlayerRecord(Players(api)[i])
  {
    PlayerMapKeys(Players(api));
    forall i | 0 <= i < |Players(api)| && LastWithId(Players(api), i)
      ensures ScoresFromFeed(api, now).scores[Players(api)[i].id] == PlayerRecord(Players(api)[i])
    {
      PlayerMapLastWins(Players(api), i);
    }
  }

  // ---------------------------------------------------------------------------
  // Aggregation
  // ---------------------------------------------------------------------------

  /** The score records of the picks whose golfer id is in `m`, in pick order. */
  function Resolved(picks: seq<Pick>, m: map<string, GolferScore>): seq<GolferScore>
  {
    if picks == [] then []
    else
      var id := picks[|picks| - 1].golferId;
      Resolved(picks[..|picks| - 1], m) + (if id in m then [m[id]] else [])
  }

  /** The sum over the picks of their golfer's score, 0 for a pick with no score. */
  function TotalOf(picks: seq<Pick>, m: map<string, GolferScore>): int
  {
    if picks == [] then 0
    else
      var id := picks[|picks| - 1].golferId;
      TotalOf(picks[..|picks| - 1], m) + (if id in m then m[id].score else 0)
  }

  /** The sum of the scores of a list of golfer records. */
  function SumScores(gs: seq<GolferScore>): int
  {
    if gs == [] then 0 else SumScores(gs[..|gs| - 1]) + gs[|gs| - 1].score
  }

  /** The entry of one participant. */
  function EntryFor(p: Participant, m: map<string, GolferScore>): Entry
  {
    Entry(p.name, TotalOf(p.picks, m), Resolved(p.picks, m), p.picks)
  }

  /** The entries in participant order, before sorting. */
  function Entries(ps: seq<Participant>, m: map<string, GolferScore>): seq<Entry>
  {
    seq(|ps|, i requires 0 <= i < |ps| => EntryFor(ps[i], m))
  }

  function TotalKey(e: Entry): int
  {
    e.totalScore
  }

  /** The standings: the entries sorted ascending by total score, stably. */
  function Standings(ps: seq<Participant>, m: map<string, GolferScore>): (d: seq<Entry>)
    ensures |d| == |ps|
    ensures multiset(d) == multiset(Entries(ps, m))
  {
    SortBy(Entries(ps, m), TotalKey)
  }

  /** Resolving and summing distribute over concatenation of the picks: the
      resolved records keep the picks' order. */
  lemma {:induction false} ResolvedAppend(a: seq<Pick>, b: seq<Pick>, m: map<string, GolferScore>)
    ensures Resolved(a + b, m) == Resolved(a, m) + Resolved(b, m)
    ensures TotalOf(a + b, m) == TotalOf(a, m) + TotalOf(b, m)
    decreases |b|
  {
    if b != [] {
      var b' := b[..|b| - 1];
      assert (a + b)[..|a + b| - 1] == a + b';
      ResolvedAppend(a, b', m);
    } else {
      assert a + b == a;
    }
  }

  /** A record is among the resolved ones iff some pick names a golfer with that record. */
  lemma {:induction false} ResolvedMembers(picks: seq<Pick>, m: map<string, GolferScore>, g: GolferScore)
    ensures g in Resolved(picks, m) <==>
            exists i :: 0 <= i < |picks| && picks[i].golferId in m && m[picks[i].golferId] == g
  {
    if picks != [] {
      var n := |picks| - 1;
      ResolvedMembers(picks[..n], m, g);
      if exists i :: 0 <= i < |picks| && picks[i].golferId in m && m[picks[i].golferId] == g {
        var i :| 0 <= i < |picks| && picks[i].golferId in m && m[picks[i].golferId] == g;
        if i < n { assert picks[..n][i] == picks[i]; }
      }
      if exists i :: 0 <= i < n && picks[..n][i].golferId in m && m[picks[..n][i].golferId] == g {
        var i :| 0 <= i < n && picks[..n][i].golferId in m && m[picks[..n][i].golferId] == g;
        assert picks[i] == picks[..n][i];
      }
    }
  }

  /** At most one record per pick, and exactly one per pick when every pick resolves,
      in which case record `i` is that of pick `i`. */
  lemma {:induction false} ResolvedLength(picks: seq<Pick>, m: map<string, GolferScore>)
    ensures |Resolved(picks, m)| <= |picks|
    ensures |Resolved(picks, m)| == |picks| <==> forall i | 0 <= i < |picks| :: picks[i].golferId in m
    ensures (forall i | 0 <= i < |picks| :: picks[i].golferId in m) ==>
              forall i | 0 <= i < |picks| :: Resolved(picks, m)[i] == m[picks[i].golferId]
  {
    if picks != [] {
      var n := |picks| - 1;
      ResolvedLength(picks[..n], m);
      if (forall i | 0 <= i < |picks| :: picks[i].golferId in m) {
        assert forall i | 0 <= i < n :: picks[..n][i].golferId in m by {
          forall i | 0 <= i < n ensures picks[..n][i].golferId in m { assert picks[..n][i] == picks[i]; }
        }
      }
      if !(forall i | 0 <= i < n :: picks[..n][i].golferId in m) {
        var i :| 0 <= i < n && picks[..n][i].golferId !in m;
        assert picks[i] == picks[..n][i];
      }
    }
  }

  /** The total is the sum of the resolved records' scores: unresolved picks add nothing. */
  lemma {:induction false} TotalIsSumOfResolved(picks: seq<Pick>, m: map<string, GolferScore>)
    ensures TotalOf(picks, m) == SumScores(Resolved(picks, m))
  {
    if picks != [] {
      var n := |picks| - 1;
      var id := picks[n].golferId;
      TotalIsSumOfResolved(picks[..n], m);
      if id in m {
        var r := Resolved(picks[..n], m) + [m[id]];
        assert r[..|r| - 1] == Resolved(picks[..n], m);
        assert SumScores(r) == SumScores(Resolved(picks[..n], m)) + m[id].score;
      } else {
        assert Resolved(picks, m) == Resolved(picks[..n], m);
      }
    }
  }

  /** Picks that name no scored golfer change neither the records nor the total. */
  lemma {:induction false} UnresolvedIgnored(picks: seq<Pick>, m: map<string, GolferScore>)
    requires forall i | 0 <= i < |picks| :: picks[i].golferId !in m
    ensures Resolved(picks, m) == [] && TotalOf(picks, m) == 0
  {
    if picks != [] {
      var n := |picks| - 1;
      assert forall i | 0 <= i < n :: picks[..n][i] == picks[i];
      UnresolvedIgnored(picks[..n], m);
    }
  }

  /** Everything the standings promise: one entry per participant (a permutation of the
      unsorted entries), each consistent with its own picks, ascending by total, and
      stable among equal totals -- so exactly the result ECMA-262's stable sort must give. */
  lemma StandingsCorrect(ps: seq<Participant>, m: map<string, GolferScore>)
    ensures var d := Standings(ps, m);
      && |d| == |ps|
      && multiset(d) == multiset(Entries(ps, m))
      && (forall i, j | 0 <= i < j < |d| :: d[i].totalScore <= d[j].totalScore)
      && (forall k :: WithKey(d, TotalKey, k) == WithKey(Entries(ps, m), TotalKey, k))
      && (forall i | 0 <= i < |ps| :: EntryFor(ps[i], m) in d)
      && (forall e | e in d :: e.totalScore == TotalOf(e.picks, m) && e.golfers == Resolved(e.picks, m))
      && (forall e | e in d :: exists i :: 0 <= i < |ps| && e == EntryFor(ps[i], m))
  {
    var u := Entries(ps, m);
    var d := Standings(ps, m);
    SortBySortedPermutation(u, TotalKey);
    forall k ensures WithKey(d, TotalKey, k) == WithKey(u, TotalKey, k) {
      SortByStable(u, TotalKey, k);
    }
    forall i | 0 <= i < |ps| ensures EntryFor(ps[i], m) in d {
      assert u[i] in multiset(u);
    }
    forall e | e in d ensures exists i :: 0 <= i < |ps| && e == EntryFor(ps[i], m) {
      assert e in multiset(d);
      var i :| 0 <= i < |u| && u[i] == e;
    }
  }

  /** An example: A picks golfers 1 and 2, B picks golfer 2; golfer 1 is at -5 and
      golfer 2 at +3, so A totals -2, B totals +3, and A is ranked before B. */
  lemma WorkedExample()
    ensures var g1 := GolferScore("Golfer One", -5, "1", "F");
      var g2 := GolferScore("Golfer Two", 3, "T9", "F");
      var a := Participant("A", [Pick("golfer1"), Pick("golfer2")]);
      var b := Participant("B", [Pick("golfer2")]);
      Standings([a, b], map["golfer1" := g1, "golfer2" := g2])
        == [Entry("A", -2, [g1, g2], a.picks), Entry("B", 3, [g2], b.picks)]
  {
    var g1 := GolferScore("Golfer One", -5, "1", "F");
    var g2 := GolferScore("Golfer Two", 3, "T9", "F");
    var a := Participant("A", [Pick("golfer1"), Pick("golfer2")]);
    var b := Participant("B", [Pick("golfer2")]);
    var m := map["golfer1" := g1, "golfer2" := g2];
    assert a.picks[..1] == [Pick("golfer1")];
    assert a.picks[..1][..0] == [] && b.picks[..0] == [];
    assert Resolved(a.picks[..1], m) == [g1];
    assert TotalOf(a.picks[..1], m) == -5;
    assert EntryFor(a, m) == Entry("A", -2, [g1, g2], a.picks);
    assert EntryFor(b, m) == Entry("B", 3, [g2], b.picks);
    var u := Entries([a, b], m);
    assert u == [EntryFor(a, m), EntryFor(b, m)];
    assert u[1..] == [EntryFor(b, m)];
  }

  // ---------------------------------------------------------------------------
  // Display
  // ---------------------------------------------------------------------------

  /** A score as shown: over-par scores get a leading `+`. */
  function Signed(n: int): (r: string)
    ensures r != []
    ensures r[0] == '+' <==> n > 0
    ensures r[0] == '-' <==> n < 0
  {
    (if n > 0 then "+" else "") + NumberText(n)
  }

  /** The shown text starts with `+` exactly for positive and with `-` exactly for
      negative scores, and reads back as the score. */
  lemma SignedText(n: int)
    ensures Signed(n) != []
    ensures Signed(n)[0] == '+' <==> n > 0
    ensures Signed(n)[0] == '-' <==> n < 0
    ensures ParseNumber(Signed(n)) == n
  {
    ParseNumberText(n);
    if n > 0 {
      ParseNatText(n);
      assert Signed(n)[1..] == NatText(n);
    } else if n < 0 {
      assert Signed(n) == NumberText(n);
    } else {
      ParseNatText(n);
    }
  }

  /** The rank badge class: the first three ranks are marked, every other rank is not. */
  function RankClass(rank: int): (c: string)
    ensures c == "first" <==> rank == 1
    ensures c == "second" <==> rank == 2
    ensures c == "third" <==> rank == 3
    ensures c == "" <==> rank != 1 && rank != 2 && rank != 3
  {
    if rank == 1 then "first" else if rank == 2 then "second" else if rank == 3 then "third" else ""
  }

  /** `name (score)` for one golfer. */
  function GolferText(g: GolferScore): string
  {
    g.name + " (" + Signed(g.score) + ")"
  }

  /** The golfers' texts, in order. */
  function GolferTexts(gs: seq<GolferScore>): seq<string>
  {
    seq(|gs|, i requires 0 <= i < |gs| => GolferText(gs[i]))
  }

  /** The comma-separated golfer list of a row: every golfer's text in order, each
      but the last followed by `, `, and nothing after the last. */
  function GolfersText(gs: seq<GolferScore>): (r: string)
    ensures gs == [] ==> r == ""
    ensures gs != [] ==> |GolferText(gs[0])| <= |r| && r[..|GolferText(gs[0])|] == GolferText(gs[0])
    ensures forall i | 0 <= i < |gs| :: PieceAt(r, GolferText(gs[i]), Offset(GolferTexts(gs), ", ", i))
    ensures forall i | 0 <= i < |gs| - 1 ::
              PieceAt(r, ", ", Offset(GolferTexts(gs), ", ", i) + |GolferText(gs[i])|)
    ensures gs != [] ==> |r| + 2 == Offset(GolferTexts(gs), ", ", |gs|)
  {
    JoinLayout(GolferTexts(gs), ", ");
    Join(GolferTexts(gs), ", ")
  }

  /** One table row. */
  datatype Row = Row(rank: int, rankClass: string, participant: string,
                     golfersText: string, golferCount: int, totalText: string)

  /** The rendered table: the status fields (`-` when absent) and one row per entry. */
  datatype Table = Table(currentRound: string, tournamentStatus: string, rows: seq<Row>)

  /** The row of the entry at position `index` of the standings. */
  function RowFor(index: nat, e: Entry): Row
  {
    Row(index + 1, RankClass(index + 1), e.participant, GolfersText(e.golfers), |e.golfers|, Signed(e.totalScore))
  }

  /** The table for a scores document and the standings, one row per entry in order. */
  function TableOf(doc: ScoresDoc, d: seq<Entry>): (t: Table)
    ensures |t.rows| == |d|
    ensures t.currentRound == OrDefault(doc.currentRound, "-")
    ensures t.tournamentStatus == OrDefault(doc.tournamentStatus, "-")
    ensures forall i | 0 <= i < |d| :: t.rows[i].rank == i + 1 && t.rows[i].rankClass == RankClass(i + 1)
    ensures forall i | 0 <= i < |d| :: t.rows[i].participant == d[i].participant
    ensures forall i | 0 <= i < |d| :: t.rows[i].golfersText == GolfersText(d[i].golfers)
    ensures forall i | 0 <= i < |d| :: t.rows[i].golferCount == |d[i].golfers|
    ensures forall i | 0 <= i < |d| :: t.rows[i].totalText == Signed(d[i].totalScore)
  {
    Table(OrDefault(doc.currentRound, "-"), OrDefault(doc.tournamentStatus, "-"),
          seq(|d|, i requires 0 <= i < |d| => RowFor(i, d[i])))
  }

  /** What the leaderboard container shows. */
  datatype View = Blank | Shown(table: Table) | ErrorBox(message: string)

  const InitError := "Failed to load leaderboard data"

  // ---------------------------------------------------------------------------
  // The page object
  // ---------------------------------------------------------------------------

  class Board {
    var picks: Option<PicksDoc>
    var scores: Option<ScoresDoc>
    var leaderboardData: seq<Entry>
    var view: View

    constructor ()
      ensures picks == None && scores == None && leaderboardData == [] && view == Blank
    {
      picks := None;
      scores := None;
      leaderboardData := [];
      view := Blank;
    }

    /** Loads the picks document; a failed response throws and leaves `picks` as it was. */
    method LoadPicks(response: Response<PicksDoc>) returns (outcome: Outcome<LoadError>)
      modifies this`picks
      ensures response.Ok? ==> outcome == Pass && picks == Some(response.body)
      ensures response.NotOk? ==> outcome == Fail(Failed("Failed to load picks")) && picks == old(picks)
      ensures response.NetworkError? ==> outcome == Fail(Network) && picks == old(picks)
    {
      match response
      case Ok(body) =>
        picks := Some(body);
        outcome := Pass;
      case NotOk =>
        outcome := Fail(Failed("Failed to load picks"));
      case NetworkError =>
        outcome := Fail(Network);
    }

    /** Maps a feed document by keying each player by id, in feed order. */
    method TransformMastersApiData(api: ApiData, now: string) returns (doc: ScoresDoc)
      ensures doc == ScoresFromFeed(api, now)
      ensures doc.scores.Keys == set p | p in Players(api) :: p.id
      ensures forall i | 0 <= i < |Players(api)| && LastWithId(Players(api), i) ::
                doc.scores[Players(api)[i].id] == PlayerRecord(Players(api)[i])
    {
      var scoresMap: map<string, GolferScore> := map[];
      if api.player.Some? {
        var ps := api.player.value;
        var i := 0;
        while i < |ps|
          invariant 0 <= i <= |ps|
          invariant scoresMap == PlayerMap(ps[..i])
        {
          assert ps[..i + 1][..i] == ps[..i];
          scoresMap := scoresMap[ps[i].id := PlayerRecord(ps[i])];
          i := i + 1;
        }
        assert ps[..i] == ps;
      }
      doc := ScoresDoc(
        Some(now),
        Some(OrDefault(TournamentStatus(api), "In Progress")),
        Some(OrDefault(TournamentRound(api), "Round 1")),
        scoresMap);
      FeedMapping(api, now);
    }

    /** The live feed attempt: a mapped document when the feed answered, and `None`
        (the caught failure) otherwise. */
    method FetchFromMastersApi(feed: Response<ApiData>, now: string) returns (result: Option<ScoresDoc>)
      ensures feed.Ok? ==> result == Some(ScoresFromFeed(feed.body, now))
      ensures !feed.Ok? ==> result == None
    {
      if feed.Ok? {
        var doc := TransformMastersApiData(feed.body, now);
        result := Some(doc);
      } else {
        result := None;
      }
    }

    /** Chooses the score source: the live result whenever there is one, otherwise the
        fallback document exactly; the two are never combined. A failed fallback throws
        and leaves `scores` as it was. */
    method LoadScores(apiScores: Option<ScoresDoc>, fallback: Response<ScoresDoc>)
      returns (outcome: Outcome<LoadError>)
      modifies this`scores
      ensures apiScores.Some? ==> outcome == Pass && scores == apiScores
      ensures apiScores.None? && fallback.Ok? ==> outcome == Pass && scores == Some(fallback.body)
      ensures apiScores.None? && fallback.NotOk? ==>
                outcome == Fail(Failed("Failed to load scores")) && scores == old(scores)
      ensures apiScores.None? && fallback.NetworkError? ==> outcome == Fail(Network) && scores == old(scores)
    {
      if apiScores.Some? {
        scores := apiScores;
        outcome := Pass;
        return;
      }
      match fallback
      case Ok(body) =>
        scores := Some(body);
        outcome := Pass;
      case NotOk =>
        outcome := Fail(Failed("Failed to load scores"));
      case NetworkError =>
        outcome := Fail(Network);
    }

    /** Builds one entry per participant and sorts them by total score. */
    method CalculateLeaderboard()
      requires picks.Some? && scores.Some?
      modifies this`leaderboardData
      ensures leaderboardData == Standings(picks.value.participants, scores.value.scores)
    {
      var ps := picks.value.participants;
      var m := scores.value.scores;
      var entries: seq<Entry> := [];
      for j := 0 to |ps|
        invariant |entries| == j
        invariant forall k | 0 <= k < j :: entries[k] == EntryFor(ps[k], m)
      {
        var e := ScoreParticipant(ps[j], m);
        entries := entries + [e];
      }
      assert entries == Entries(ps, m);
      leaderboardData := SortBy(entries, TotalKey);
    }

    /** The table for the current standings: rank `index + 1`, the rank class, the
        golfer list, the golfer count and the signed total of each entry, in order. */
    method RenderTable() returns (t: Table)
      requires scores.Some?
      ensures t == TableOf(scores.value, leaderboardData)
      ensures t.currentRound == OrDefault(scores.value.currentRound, "-")
      ensures t.tournamentStatus == OrDefault(scores.value.tournamentStatus, "-")
      ensures |t.rows| == |leaderboardData|
      ensures forall i | 0 <= i < |t.rows| ::
                var e := leaderboardData[i];
                t.rows[i] == Row(i + 1, RankClass(i + 1), e.participant,
                                 GolfersText(e.golfers), |e.golfers|, Signed(e.totalScore))
    {
      var rows: seq<Row> := [];
      for index := 0 to |leaderboardData|
        invariant |rows| == index
        invariant forall i | 0 <= i < index ::
                    var e := leaderboardData[i];
                    rows[i] == Row(i + 1, RankClass(i + 1), e.participant,
                                   GolfersText(e.golfers), |e.golfers|, Signed(e.totalScore))
      {
        var entry := leaderboardData[index];
        var rank := index + 1;
        var rankClass := RankClass(rank);
        rows := rows + [Row(rank, rankClass, entry.participant, GolfersText(entry.golfers),
                            |entry.golfers|, Signed(entry.totalScore))];
      }
      t := Table(OrDefault(scores.value.currentRound, "-"),
                 OrDefault(scores.value.tournamentStatus, "-"), rows);
    }

    /** Loads picks, then scores, computes the standings and shows the table; any
        failure is caught and shown as the error message instead. */
    method Init(picksResponse: Response<PicksDoc>, feed: Response<ApiData>,
                fallback: Response<ScoresDoc>, now: string)
      modifies this
      ensures picks == (if picksResponse.Ok? then Some(picksResponse.body) else old(picks))
      ensures scores == (if !picksResponse.Ok? then old(scores)
                         else if feed.Ok? then Some(ScoresFromFeed(feed.body, now))
                         else if fallback.Ok? then Some(fallback.body)
                         else old(scores))
      ensures var loaded := picksResponse.Ok? && (feed.Ok? || fallback.Ok?);
        && (loaded ==> picks.Some? && scores.Some? &&
                       leaderboardData == Standings(picks.value.participants, scores.value.scores) &&
                       view == Shown(TableOf(scores.value, leaderboardData)))
        && (!loaded ==> leaderboardData == old(leaderboardData) && view == ErrorBox(InitError))
    {
      var outcome := LoadPicks(picksResponse);
      if outcome.Fail? {
        view := ErrorBox(InitError);
        return;
      }
      var apiScores := FetchFromMastersApi(feed, now);
      outcome := LoadScores(apiScores, fallback);
      if outcome.Fail? {
        view := ErrorBox(InitError);
        return;
      }
      CalculateLeaderboard();
      var table := RenderTable();
      view := Shown(table);
    }
  }

  /** The per-participant step: walks the picks once, accumulating the total and
      collecting the records of the picks that have a score. */
  method ScoreParticipant(p: Participant, m: map<string, GolferScore>) returns (e: Entry)
    ensures e.participant == p.name && e.picks == p.picks
    ensures e.totalScore == TotalOf(p.picks, m)
    ensures e.golfers == Resolved(p.picks, m)
  {
    var totalScore := 0;
    var golferScores: seq<GolferScore> := [];
    for i := 0 to |p.picks|
      invariant totalScore == TotalOf(p.picks[..i], m)
      invariant golferScores == Resolved(p.picks[..i], m)
    {
      assert p.picks[..i + 1][..i] == p.picks[..i];
      var id := p.picks[i].golferId;
      if id in m {
        var golferScore := m[id];
        golferScores := golferScores + [GolferScore(golferScore.name, golferScore.score,
                                                    golferScore.position, golferScore.thru)];
        totalScore := totalScore + golferScore.score;
      }
    }
    assert p.picks[..|p.picks|] == p.picks;
    e := Entry(p.name, totalScore, golferScores, p.picks);
  }
}
