/** The row filtering of the explorer's `get_catalog` callback: the long
    (Player, Shot Type, Points) table is rescaled from made shots to points
    scored, then narrowed to the players that meet the minimum points per
    game, play for the chosen team and are listed under one of the chosen
    positions. */
module Explorer {
  import opened Common
  import opened Text
  import opened Api

  /** `shot_values`, keyed by the Shot Type labels. */
  const ShotValues: map<string, real> := map["3P" := 3.0, "2P" := 2.0, "FT" := 1.0]

  /** `local["Shot Type"].map(shot_values)` on one row: the points one made
      shot of type `t` is worth, looked up under its label. */
  function ShotValue(t: ShotType): (v: real)
    ensures v > 0.0
  {
    assert Name(t) in ShotColumns;
    ShotValues[Name(t)]
  }

  /** The points `made` shots of type `t` are worth: `ShotValue(t) * made`
      written out per shot type, so that the scaled Points are linear in
      `made` (WorthMeans proves the two agree). */
  function Worth(t: ShotType, made: real): real
  {
    match t
    case ThreePointers => 3.0 * made
    case TwoPointers => 2.0 * made
    case FreeThrows => made
  }

  /** Worth is the shot's value times the number made, and has the sign
      of the number made. */
  lemma WorthMeans(t: ShotType, made: real)
    ensures Worth(t, made) == ShotValue(t) * made
    ensures Worth(t, made) > 0.0 <==> made > 0.0
  {
  }

  /** One row with its made shots turned into points. */
  function ScaleRow(y: ShotRow): ShotRow
  {
    ShotRow(y.player, y.shotType, Worth(y.shotType, y.points))
  }

  /** `local["Points"] = local["Shot Type"].map(shot_values) * local["Points"]`. */
  function Scale(s: seq<ShotRow>): (r: seq<ShotRow>)
    ensures |r| == |s|
    ensures forall i :: 0 <= i < |s| ==> r[i] == ScaleRow(s[i])
  {
    seq(|s|, i requires 0 <= i < |s| => ScaleRow(s[i]))
  }

  /** A row is in the scaled table iff it is the scaled form of a row of
      the input: scaling neither adds nor loses rows. */
  lemma ScaleMeans(s: seq<ShotRow>, x: ShotRow)
    ensures x in Scale(s) <==> exists y :: y in s && ScaleRow(y) == x
  {
    var r := Scale(s);
    if x in r {
      var i :| 0 <= i < |r| && r[i] == x;
      assert s[i] in s && ScaleRow(s[i]) == x;
    }
    if exists y :: y in s && ScaleRow(y) == x {
      var y :| y in s && ScaleRow(y) == x;
      var i :| 0 <= i < |s| && s[i] == y;
      assert r[i] == x;
    }
  }

  /** `local[local["Player"].isin(players)]`: the rows whose player is one
      of `players`, in their original order. */
  function Select(s: seq<ShotRow>, players: set<string>): (r: seq<ShotRow>)
    ensures |r| <= |s|
  {
    if s == [] then []
    else (if s[0].player in players then [s[0]] else []) + Select(s[1..], players)
  }

  /** A row survives the filter iff it was there and its player is one of
      `players`. */
  lemma {:induction false} SelectMeans(s: seq<ShotRow>, players: set<string>, x: ShotRow)
    ensures x in Select(s, players) <==> x in s && x.player in players
  {
    if s != [] {
      SelectMeans(s[1..], players, x);
      assert s == [s[0]] + s[1..];
    }
  }

  /** The filter works row by row: filtering a concatenation filters each
      part, so every matching row is kept, repeats included, in order. */
  lemma {:induction false} SelectConcat(a: seq<ShotRow>, b: seq<ShotRow>, players: set<string>)
    ensures Select(a + b, players) == Select(a, players) + Select(b, players)
  {
    if a == [] {
      assert a + b == b;
    } else {
      var x, t := a[0], a[1..];
      assert a == [x] + t;
      AppendAssoc([x], t, b);
      SelectConcat(t, b, players);
      SelectCons(x, t + b, players);
      SelectCons(x, t, players);
      AppendAssoc(if x.player in players then [x] else [], Select(t, players), Select(b, players));
    }
  }

  /** One step of the filter: the first row, then the rest. */
  lemma SelectCons(x: ShotRow, t: seq<ShotRow>, players: set<string>)
    ensures Select([x] + t, players) == (if x.player in players then [x] else []) + Select(t, players)
  {
    assert ([x] + t)[0] == x && ([x] + t)[1..] == t;
  }

  /** Filtering twice is filtering once by the players both sets share. */
  lemma {:induction false} SelectSelect(s: seq<ShotRow>, a: set<string>, b: set<string>)
    ensures Select(Select(s, a), b) == Select(s, a * b)
  {
    if s != [] {
      SelectSelect(s[1..], a, b);
      if s[0].player in a {
        var t := Select(s, a);
        assert t == [s[0]] + Select(s[1..], a);
        assert t[0] == s[0] && t[1..] == Select(s[1..], a);
      } else {
        assert Select(s, a) == Select(s[1..], a);
      }
    }
  }

  /** `a` is `b` with some rows removed, the rest kept in order. */
  predicate Subsequence(a: seq<ShotRow>, b: seq<ShotRow>)
    decreases |b|
  {
    if a == [] then true
    else if b == [] then false
    else (a[0] == b[0] && Subsequence(a[1..], b[1..])) || Subsequence(a, b[1..])
  }

  /** The filter only removes rows: it never adds, duplicates or reorders
      one. */
  lemma {:induction false} SelectSubsequence(s: seq<ShotRow>, players: set<string>)
    ensures Subsequence(Select(s, players), s)
  {
    if s != [] {
      SelectSubsequence(s[1..], players);
      var t := Select(s, players);
      if s[0].player in players {
        assert t[0] == s[0] && t[1..] == Select(s[1..], players);
      } else {
        assert t == Select(s[1..], players);
      }
    }
  }

  /** `player_pts[player_pts >= min_scored].index`: the players with a
      stats row whose PTS is at least `minScored`; a missing PTS compares
      false. */
  function Scorers(rows: seq<PlayerStats>, minScored: int): set<string>
  {
    set i | 0 <= i < |rows| && rows[i].pts.Some? && rows[i].pts.value >= minScored as real :: rows[i].player
  }

  /** `api.stats.loc[api.stats['Tm'] == team, "Player"]`. */
  function TeamPlayers(rows: seq<PlayerStats>, team: string): set<string>
  {
    set i | 0 <= i < |rows| && rows[i].team == Some(team) :: rows[i].player
  }

  /** `api.stats.loc[api.stats['Pos'].isin(positions), "Player"]`: the raw
      Pos cell must equal one of `positions` exactly. */
  function PositionPlayers(rows: seq<PlayerStats>, positions: seq<string>): set<string>
  {
    set i | 0 <= i < |rows| && rows[i].pos.Some? && rows[i].pos.value in positions :: rows[i].player
  }

  /** Raising the minimum only removes players. */
  lemma ScorersAntitone(rows: seq<PlayerStats>, low: int, high: int)
    requires low <= high
    ensures Scorers(rows, high) <= Scorers(rows, low)
  {
  }

  /** A stats row whose PTS is missing makes no player a scorer, since NaN
      compares false with the minimum. */
  lemma ScorersSkipMissing(rows: seq<PlayerStats>, row: PlayerStats, minScored: int)
    requires row.pts.None?
    ensures Scorers(rows + [row], minScored) == Scorers(rows, minScored)
  {
    var all := rows + [row];
    forall p | p in Scorers(all, minScored)
      ensures p in Scorers(rows, minScored)
    {
      var i :| 0 <= i < |all| && all[i].pts.Some? && all[i].pts.value >= minScored as real && all[i].player == p;
      assert all[i] == rows[i];
    }
    forall p | p in Scorers(rows, minScored)
      ensures p in Scorers(all, minScored)
    {
      var i :| 0 <= i < |rows| && rows[i].pts.Some? && rows[i].pts.value >= minScored as real && rows[i].player == p;
      assert all[i] == rows[i];
    }
  }

  /** A stats row whose Tm is missing puts its player on no team. */
  lemma TeamPlayersSkipMissing(rows: seq<PlayerStats>, row: PlayerStats, team: string)
    requires row.team.None?
    ensures TeamPlayers(rows + [row], team) == TeamPlayers(rows, team)
  {
    var all := rows + [row];
    forall p | p in TeamPlayers(all, team)
      ensures p in TeamPlayers(rows, team)
    {
      var i :| 0 <= i < |all| && all[i].team == Some(team) && all[i].player == p;
      assert all[i] == rows[i];
    }
    forall p | p in TeamPlayers(rows, team)
      ensures p in TeamPlayers(all, team)
    {
      var i :| 0 <= i < |rows| && rows[i].team == Some(team) && rows[i].player == p;
      assert all[i] == rows[i];
    }
  }

  /** Ticking more positions only adds players: the players at `a + b` are
      those at `a` and those at `b`. */
  lemma PositionPlayersUnion(rows: seq<PlayerStats>, a: seq<string>, b: seq<string>)
    ensures PositionPlayers(rows, a + b) == PositionPlayers(rows, a) + PositionPlayers(rows, b)
  {
    forall p | p in PositionPlayers(rows, a + b)
      ensures p in PositionPlayers(rows, a) + PositionPlayers(rows, b)
    {
      var i :| 0 <= i < |rows| && rows[i].pos.Some? && rows[i].pos.value in a + b && rows[i].player == p;
      if rows[i].pos.value in a {
        assert p in PositionPlayers(rows, a);
      } else {
        assert p in PositionPlayers(rows, b);
      }
    }
  }

  /** The players all the filters `get_catalog` applies let through: the
      team filter is off for "All" and the position filter for an empty
      selection. */
  function Kept(rows: seq<PlayerStats>, minScored: int, team: string, positions: seq<string>): set<string>
  {
    var scored := Scorers(rows, minScored);
    var onTeam := if team != "All" then scored * TeamPlayers(rows, team) else scored;
    if positions != [] then onTeam * PositionPlayers(rows, positions) else onTeam
  }

  /** The table `get_catalog` shows for a loaded stats table, or the
      exception it raises: the KeyErrors of `extract_local_network` first,
      then a missing PTS column, then a missing Tm column when a team is
      chosen, then a missing Pos column when positions are chosen. */
  function Catalog(stats: Stats, minScored: int, team: string, positions: seq<string>): (r: Result<seq<ShotRow>, Error>)
    ensures LocalNetwork(stats).Failure? ==> r == Failure(LocalNetwork(stats).error)
    ensures LocalNetwork(stats).Success? ==>
      && ("PTS" !in stats.columns ==> r == Failure(KeyError(["PTS"])))
      && (("PTS" in stats.columns && team != "All" && "Tm" !in stats.columns) ==> r == Failure(KeyError(["Tm"])))
      && (("PTS" in stats.columns && (team == "All" || "Tm" in stats.columns)
           && positions != [] && "Pos" !in stats.columns) ==> r == Failure(KeyError(["Pos"])))
      && (r.Success? <==>
            "PTS" in stats.columns
            && (team == "All" || "Tm" in stats.columns)
            && (positions == [] || "Pos" in stats.columns))
  {
    match LocalNetwork(stats)
    case Failure(e) => Failure(e)
    case Success(extracted) =>
      if "PTS" !in stats.columns then Failure(KeyError(["PTS"]))
      else if team != "All" && "Tm" !in stats.columns then Failure(KeyError(["Tm"]))
      else if positions != [] && "Pos" !in stats.columns then Failure(KeyError(["Pos"]))
      else
        var scored := Select(Scale(extracted), Scorers(stats.rows, minScored));
        var onTeam := if team != "All" then Select(scored, TeamPlayers(stats.rows, team)) else scored;
        var atPos := if positions != [] then Select(onTeam, PositionPlayers(stats.rows, positions)) else onTeam;
        Success(atPos)
  }

  /** The three successive filters are one filter by the players they all
      let through, so the table is the scaled extraction with rows removed
      and the order kept. */
  lemma CatalogOrder(stats: Stats, minScored: int, team: string, positions: seq<string>)
    requires Catalog(stats, minScored, team, positions).Success?
    ensures Catalog(stats, minScored, team, positions).value
         == Select(Scale(Extracted(stats.rows)), Kept(stats.rows, minScored, team, positions))
    ensures Subsequence(Catalog(stats, minScored, team, positions).value, Scale(Extracted(stats.rows)))
  {
    var rows := stats.rows;
    var scaled := Scale(Extracted(stats.rows));
    var scorers := Scorers(rows, minScored);
    var scored := Select(scaled, scorers);
    var onTeamSet := if team != "All" then scorers * TeamPlayers(rows, team) else scorers;
    if team != "All" {
      SelectSelect(scaled, scorers, TeamPlayers(rows, team));
    }
    if positions != [] {
      SelectSelect(scaled, onTeamSet, PositionPlayers(rows, positions));
    }
    SelectSubsequence(scaled, Kept(rows, minScored, team, positions));
  }

  /** A row is in the scaled extraction iff some player's made-shot cell
      is positive and the row carries that player, that shot type and the
      points that cell is worth. */
  lemma ScaledMembers(rows: seq<PlayerStats>, x: ShotRow)
    ensures x in Scale(Extracted(rows)) <==>
      && x.points > 0.0
      && exists i :: 0 <= i < |rows| && rows[i].player == x.player
           && ShotCell(rows[i], x.shotType).Some?
           && x.points == Worth(x.shotType, ShotCell(rows[i], x.shotType).value)
  {
    var e := Extracted(rows);
    ScaleMeans(e, x);
    if x in Scale(e) {
      var y :| y in e && ScaleRow(y) == x;
      ExtractedMembers(rows, y);
      var i :| 0 <= i < |rows| && rows[i].player == y.player && ShotCell(rows[i], y.shotType) == Some(y.points);
      WorthMeans(y.shotType, y.points);
    }
    if && x.points > 0.0
       && exists i :: 0 <= i < |rows| && rows[i].player == x.player
            && ShotCell(rows[i], x.shotType).Some?
            && x.points == Worth(x.shotType, ShotCell(rows[i], x.shotType).value)
    {
      var i :| 0 <= i < |rows| && rows[i].player == x.player
            && ShotCell(rows[i], x.shotType).Some?
            && x.points == Worth(x.shotType, ShotCell(rows[i], x.shotType).value);
      var y := ShotRow(x.player, x.shotType, ShotCell(rows[i], x.shotType).value);
      WorthMeans(x.shotType, y.points);
      assert Made(rows, y);
      ExtractedMembers(rows, y);
      assert y in e && ScaleRow(y) == x;
    }
  }

  /** A row is in the table iff it is a scaled extracted row (see
      ScaledMembers) whose player passes every active filter. */
  lemma CatalogMembers(stats: Stats, minScored: int, team: string, positions: seq<string>, x: ShotRow)
    requires Catalog(stats, minScored, team, positions).Success?
    ensures x in Catalog(stats, minScored, team, positions).value <==>
      && x in Scale(Extracted(stats.rows))
      && x.player in Scorers(stats.rows, minScored)
      && (team == "All" || x.player in TeamPlayers(stats.rows, team))
      && (positions == [] || x.player in PositionPlayers(stats.rows, positions))
  {
    CatalogOrder(stats, minScored, team, positions);
    SelectMeans(Scale(Extracted(stats.rows)), Kept(stats.rows, minScored, team, positions), x);
  }

  /** Every row of the table has positive Points, so the flows drawn from
      it are positive. */
  lemma CatalogPositive(stats: Stats, minScored: int, team: string, positions: seq<string>)
    requires Catalog(stats, minScored, team, positions).Success?
    ensures forall x :: x in Catalog(stats, minScored, team, positions).value ==> x.points > 0.0
  {
    forall x | x in Catalog(stats, minScored, team, positions).value
      ensures x.points > 0.0
    {
      CatalogMembers(stats, minScored, team, positions, x);
      ScaledMembers(stats.rows, x);
    }
  }

  /** `get_catalog`: the table is built by reassigning `local` step by step
      as the callback does. The stats table is read, never written. */
  method GetCatalog(api: API, minScored: int, team: string, positions: seq<string>)
    returns (r: Result<seq<ShotRow>, Error>)
    ensures api.stats.None? ==> r == Failure(TypeError)
    ensures api.stats.Some? ==> r == Catalog(api.stats.value, minScored, team, positions)
  {
    var extracted := api.ExtractLocalNetwork();
    if extracted.Failure? {
      return Failure(extracted.error);
    }
    var stats := api.stats.value;
    var local := Scale(extracted.value);
    if "PTS" !in stats.columns {
      return Failure(KeyError(["PTS"]));
    }
    local := Select(local, Scorers(stats.rows, minScored));
    if team != "All" {
      if "Tm" !in stats.columns {
        return Failure(KeyError(["Tm"]));
      }
      local := Select(local, TeamPlayers(stats.rows, team));
    }
    if positions != [] {
      if "Pos" !in stats.columns {
        return Failure(KeyError(["Pos"]));
      }
      local := Select(local, PositionPlayers(stats.rows, positions));
    }
    r := Success(local);
  }
}
