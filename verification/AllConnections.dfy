/** Personal and team connections seen as one: a map in which a later list overrides an earlier one,
    and a search for a single entry that must find what the map holds. */
module AllConnections {
  import opened Outcomes

  datatype Connection = Connection(id: string, body: nat)

  /** The first entry of a list with that id. */
  function Find(list: seq<Connection>, id: string): Option<Connection> {
    if list == [] then None else if list[0].id == id then Some(list[0]) else Find(list[1..], id)
  }

  function Put(m: map<string, Connection>, list: seq<Connection>): map<string, Connection> {
    if list == [] then m else Put(m, list[..|list| - 1])[list[|list| - 1].id := list[|list| - 1]]
  }

  function PutAll(m: map<string, Connection>, lists: seq<seq<Connection>>): map<string, Connection> {
    if lists == [] then m else Put(PutAll(m, lists[..|lists| - 1]), lists[|lists| - 1])
  }

  function Teams(teams: map<string, seq<Connection>>, ids: seq<string>): seq<seq<Connection>> {
    seq(|ids|, i requires 0 <= i < |ids| => if ids[i] in teams then teams[ids[i]] else [])
  }

  ghost predicate UniqueIds(list: seq<Connection>) {
    forall i, j | 0 <= i < j < |list| :: list[i].id != list[j].id
  }

  function Lookup(m: map<string, Connection>, id: string): Option<Connection> {
    if id in m then Some(m[id]) else None
  }

  function LastWith(list: seq<Connection>, id: string): Option<Connection> {
    if list == [] then None
    else if list[|list| - 1].id == id then Some(list[|list| - 1]) else LastWith(list[..|list| - 1], id)
  }

  /** Putting a list into the map leaves, for each id, the list's last entry with it. */
  lemma {:induction false} PutKeepsLast(m: map<string, Connection>, list: seq<Connection>, id: string)
    ensures Lookup(Put(m, list), id) == if LastWith(list, id).Some? then LastWith(list, id) else Lookup(m, id)
  {
    if list == [] {
    } else {
      PutKeepsLast(m, list[..|list| - 1], id);
    }
  }

  lemma {:induction false} FindMeets(list: seq<Connection>, id: string)
    ensures match Find(list, id)
            case Some(c) => exists i :: 0 <= i < |list| && list[i] == c && c.id == id
                                        && forall j | 0 <= j < i :: list[j].id != id
            case None => forall j | 0 <= j < |list| :: list[j].id != id
  {
    if list == [] || list[0].id == id {
    } else {
      FindMeets(list[1..], id);
      if Find(list[1..], id).Some? {
        var i :| 0 <= i < |list[1..]| && list[1..][i] == Find(list[1..], id).value
                 && forall j | 0 <= j < i :: list[1..][j].id != id;
        assert list[i + 1] == list[1..][i];
        forall j | 0 <= j < i + 1 ensures list[j].id != id {
          assert j > 0 ==> list[j] == list[1..][j - 1];
        }
      } else {
        forall j | 0 <= j < |list| ensures list[j].id != id {
          assert j > 0 ==> list[j] == list[1..][j - 1];
        }
      }
    }
  }

  lemma {:induction false} LastMeets(list: seq<Connection>, id: string)
    ensures match LastWith(list, id)
            case Some(c) => exists i :: 0 <= i < |list| && list[i] == c && c.id == id
                                        && forall j | i < j < |list| :: list[j].id != id
            case None => forall j | 0 <= j < |list| :: list[j].id != id
  {
    if list == [] {
    } else {
      LastMeets(list[..|list| - 1], id);
    }
  }

  /** With unique ids the first entry with an id, which a search finds, is the last, which the map keeps. */
  lemma {:induction false} FirstIsLast(list: seq<Connection>, id: string)
    requires UniqueIds(list)
    ensures Find(list, id) == LastWith(list, id)
  {
    FindMeets(list, id);
    LastMeets(list, id);
  }

  /** What the backward search over the lists finds. */
  function Searched(personal: seq<Connection>, lists: seq<seq<Connection>>, id: string): Option<Connection> {
    if lists == [] then Find(personal, id)
    else
      var team := Find(lists[|lists| - 1], id);
      if team.Some? then team else Searched(personal, lists[..|lists| - 1], id)
  }

  /** The search and the map agree on every id, whatever the lists share between them. */
  lemma {:induction false} SearchAgreesWithMap(personal: seq<Connection>, lists: seq<seq<Connection>>, id: string)
    requires UniqueIds(personal) && forall l | l in lists :: UniqueIds(l)
    ensures Searched(personal, lists, id) == Lookup(PutAll(Put(map[], personal), lists), id)
  {
    if lists == [] {
      PutKeepsLast(map[], personal, id);
      FirstIsLast(personal, id);
    } else {
      var init, last := lists[..|lists| - 1], lists[|lists| - 1];
      assert last in lists && forall l | l in init :: l in lists;
      SearchAgreesWithMap(personal, init, id);
      PutKeepsLast(PutAll(Put(map[], personal), init), last, id);
      FirstIsLast(last, id);
    }
  }

  // ---------- what both come to, list by list ----------

  ghost predicate Has(list: seq<Connection>, id: string) {
    exists k :: 0 <= k < |list| && list[k].id == id
  }

  ghost predicate LastIn(list: seq<Connection>, id: string, c: Connection) {
    exists k :: 0 <= k < |list| && list[k] == c && c.id == id && forall m | k < m < |list| :: list[m].id != id
  }

  ghost predicate TeamHas(teams: map<string, seq<Connection>>, team: string, id: string) {
    team in teams && Has(teams[team], id)
  }

  /** The entry of the last team that has the id, or the personal one if no team does. */
  ghost predicate Wins(personal: seq<Connection>, teams: map<string, seq<Connection>>, ids: seq<string>, id: string,
                       c: Connection) {
    || (LastIn(personal, id, c) && forall j | 0 <= j < |ids| :: !TeamHas(teams, ids[j], id))
    || (exists i :: 0 <= i < |ids| && ids[i] in teams && LastIn(teams[ids[i]], id, c)
                    && forall j | i < j < |ids| :: !TeamHas(teams, ids[j], id))
  }

  lemma {:induction false} LastWithIsLast(list: seq<Connection>, id: string, c: Connection)
    ensures LastWith(list, id) == Some(c) <==> LastIn(list, id, c)
    ensures LastWith(list, id).Some? <==> Has(list, id)
  {
    LastMeets(list, id);
  }

  /** The map holds exactly the winning entries. */
  lemma {:induction false} MapHoldsWinners(personal: seq<Connection>, teams: map<string, seq<Connection>>,
                                           ids: seq<string>,
                                           id: string, c: Connection)
    ensures Lookup(PutAll(Put(map[], personal), Teams(teams, ids)), id) == Some(c) <==>
              Wins(personal, teams, ids, id, c)
  {
    if ids == [] {
      PutKeepsLast(map[], personal, id);
      LastWithIsLast(personal, id, c);
    } else {
      var (init, last) := (ids[..|ids| - 1], ids[|ids| - 1]);
      var (lists, list) := (Teams(teams, ids), if last in teams then teams[last] else []);
      assert lists[..|ids| - 1] == Teams(teams, init) && lists[|ids| - 1] == list;
      MapHoldsWinners(personal, teams, init, id, c);
      PutKeepsLast(PutAll(Put(map[], personal), Teams(teams, init)), list, id);
      LastWithIsLast(list, id, c);
      OneMoreTeam(personal, teams, ids, id, c);
    }
  }

  lemma {:induction false} OneMoreTeam(personal: seq<Connection>, teams: map<string, seq<Connection>>, ids: seq<string>,
                                       id: string, c: Connection)
    requires ids != []
    ensures var (init, last) := (ids[..|ids| - 1], ids[|ids| - 1]);
            Wins(personal, teams, ids, id, c) <==>
              if TeamHas(teams, last, id) then LastIn(teams[last], id, c) else Wins(personal, teams, init, id, c)
  {
    var (init, last) := (ids[..|ids| - 1], ids[|ids| - 1]);
    assert forall j | 0 <= j < |init| :: init[j] == ids[j];
    if TeamHas(teams, last, id) {
      if LastIn(teams[last], id, c) {
        assert ids[|ids| - 1] == last;
      }
    } else {
      if i :| 0 <= i < |ids| && ids[i] in teams && LastIn(teams[ids[i]], id, c)
              && forall j | i < j < |ids| :: !TeamHas(teams, ids[j], id) {
        assert i == |ids| - 1 ==> TeamHas(teams, last, id);
        assert init[i] == ids[i];
      }
      if i :| 0 <= i < |init| && init[i] in teams && LastIn(teams[init[i]], id, c)
              && forall j | i < j < |init| :: !TeamHas(teams, init[j], id) {
        assert ids[i] == init[i];
      }
    }
  }

  /** So does the search, when ids are unique within each list. */
  lemma {:induction false} SearchFindsWinners(personal: seq<Connection>, teams: map<string, seq<Connection>>,
                                              ids: seq<string>, id: string, c: Connection)
    requires UniqueIds(personal) && forall t | t in teams :: UniqueIds(teams[t])
    ensures Searched(personal, Teams(teams, ids), id) == Some(c) <==> Wins(personal, teams, ids, id, c)
  {
    SearchAgreesWithMap(personal, Teams(teams, ids), id);
    MapHoldsWinners(personal, teams, ids, id, c);
  }

  /** The store's lists, as the two hooks read them. */
  class ConnectionStore {
    var connections: seq<Connection>
    var teamConnections: map<string, seq<Connection>>

    method UseAllConnections(teamIds: seq<string>) returns (all: map<string, Connection>)
      ensures all == PutAll(Put(map[], connections), Teams(teamConnections, teamIds))
      ensures forall id, c :: Lookup(all, id) == Some(c) <==> Wins(connections, teamConnections, teamIds, id, c)
    {
      all := map[];
      for i := 0 to |connections|
        invariant all == Put(map[], connections[..i])
      {
        assert connections[..i + 1][..i] == connections[..i];
        all := all[connections[i].id := connections[i]];
      }
      assert connections[..|connections|] == connections;
      ghost var personal, lists := all, Teams(teamConnections, teamIds);
      for i := 0 to |teamIds|
        invariant all == PutAll(personal, lists[..i])
      {
        var team := if teamIds[i] in teamConnections then teamConnections[teamIds[i]] else [];
        assert lists[..i + 1][..i] == lists[..i] && lists[i] == team;
        ghost var before := all;
        for j := 0 to |team|
          invariant all == Put(before, team[..j])
        {
          assert team[..j + 1][..j] == team[..j];
          all := all[team[j].id := team[j]];
        }
        assert team[..|team|] == team;
      }
      assert lists[..|teamIds|] == lists;
      forall id, c ensures Lookup(all, id) == Some(c) <==> Wins(connections, teamConnections, teamIds, id, c) {
        MapHoldsWinners(connections, teamConnections, teamIds, id, c);
      }
    }

    method FindIn(list: seq<Connection>, id: string) returns (c: Option<Connection>)
      ensures c == Find(list, id)
    {
      for i := 0 to |list|
        invariant Find(list, id) == Find(list[i..], id)
      {
        if list[i].id == id {
          return Some(list[i]);
        }
        assert list[i..][1..] == list[i + 1..];
      }
      return None;
    }

    method UseConnection(id: Option<string>, teamIds: seq<string>) returns (c: Option<Connection>)
      ensures id in {None, Some("")} ==> c == None
      ensures id !in {None, Some("")} ==> c == Searched(connections, Teams(teamConnections, teamIds), id.value)
    {
      if id.None? || id.value == "" {
        return None;
      }
      ghost var lists := Teams(teamConnections, teamIds);
      assert lists[..|teamIds|] == lists;
      var i := |teamIds|;
      while i > 0
        invariant 0 <= i <= |teamIds|
        invariant Searched(connections, lists, id.value) == Searched(connections, lists[..i], id.value)
      {
        i := i - 1;
        assert lists[..i + 1][..i] == lists[..i];
        if teamIds[i] in teamConnections {
          var team := FindIn(teamConnections[teamIds[i]], id.value);
          if team.Some? {
            return team;
          }
        }
      }
      c := FindIn(connections, id.value);
    }
  }
}
