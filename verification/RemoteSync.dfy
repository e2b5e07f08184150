/**
 Mirroring remote sessions into conversations (crates/chisl-app/src/remote_session_sync.rs).

 The conversation table is the sequence of the sync user's rows in the order the repository
 lists them: newest first, ties broken by id (crates/chisl-db/src/repository/sqlite_conversation.rs).
 */
module RemoteSync {
  import opened Wrappers

  type RowId = nat  // stands for the text ids, in their order
  type Key = (string, string)  // (remote_agent_id, sessionKey)
  type Target = (string, Session)  // a session and the agent that listed it

  /** The parsed `extra` column: the members that are strings. */
  datatype Extra = Extra(remoteAgentId: Option<string>, sessionKey: Option<string>, remoteWorkspace: Option<string>)

  datatype Row = Row(id: RowId, kind: string, name: string, extra: Option<Extra>, createdAt: int, updatedAt: int)

  datatype Agent = Agent(id: string, protocol: string)

  datatype Session = Session(
    id: string, title: Option<string>, directory: Option<string>, createdAt: Option<int>, updatedAt: Option<int>)

  /** What one insert draws: the generated id, the clock reading, and whether the repository refuses it. */
  datatype Draw = Draw(id: RowId, now: int, fails: bool)

  datatype SyncError = AgentListFailed | ConversationListFailed | InsertFailed

  // ------------------------------------------------------------------
  // The table and its pages
  // ------------------------------------------------------------------

  predicate Before(a: Row, b: Row) {
    a.updatedAt > b.updatedAt || (a.updatedAt == b.updatedAt && a.id > b.id)
  }

  ghost predicate Listed(table: seq<Row>) {
    && (forall i, j | 0 <= i < j < |table| :: Before(table[i], table[j]))
    && (forall i, j | 0 <= i < j < |table| :: table[i].id != table[j].id)
  }

  datatype Page = Page(items: seq<Row>, hasMore: bool)

  function RowsBehind(table: seq<Row>, cursorRow: Row): seq<Row> {
    if table == [] then [] else
    (if Before(cursorRow, table[0]) then [table[0]] else []) + RowsBehind(table[1..], cursorRow)
  }

  function FindRow(table: seq<Row>, id: RowId): Option<Row> {
    if table == [] then None else if table[0].id == id then Some(table[0]) else FindRow(table[1..], id)
  }

  /** The query's cursor condition: rows ordered behind the cursor's row, none if that row is gone. */
  function AfterCursor(table: seq<Row>, cursor: Option<RowId>): seq<Row> {
    if cursor.None? then table
    else if FindRow(table, cursor.value).None? then []
    else RowsBehind(table, FindRow(table, cursor.value).value)
  }

  function ListPaginated(table: seq<Row>, cursor: Option<RowId>, limit: nat): Page {
    var rest := AfterCursor(table, cursor);
    if |rest| > limit then Page(rest[..limit], true) else Page(rest, false)
  }

  lemma {:induction false} NoneBehind(table: seq<Row>, row: Row)
    requires forall i | 0 <= i < |table| :: !Before(row, table[i])
    ensures RowsBehind(table, row) == []
  {
    if table != [] {
      NoneBehind(table[1..], row);
    }
  }

  lemma {:induction false} AllBehind(table: seq<Row>, row: Row)
    requires forall i | 0 <= i < |table| :: Before(row, table[i])
    ensures RowsBehind(table, row) == table
  {
    if table != [] {
      AllBehind(table[1..], row);
    }
  }

  /** The rows behind the cursor are exactly the rows the previous pages did not show. */
  lemma {:induction false} CursorIsSuffix(table: seq<Row>, i: nat)
    requires Listed(table) && i < |table|
    ensures FindRow(table, table[i].id) == Some(table[i])
    ensures AfterCursor(table, Some(table[i].id)) == table[i + 1..]
  {
    if i == 0 {
      AllBehind(table[1..], table[0]);
    } else {
      CursorIsSuffix(table[1..], i - 1);
      assert table[i] == table[1..][i - 1];
      assert table[1..][i..] == table[i + 1..];
    }
  }

  /** A page shows the next rows, and is the last one just when they are all that is left. */
  lemma PageIsNext(table: seq<Row>, cursor: Option<RowId>, limit: nat, seen: nat)
    requires seen <= |table| && AfterCursor(table, cursor) == table[seen..]
    ensures var page := ListPaginated(table, cursor, limit);
            var n := if |table| - seen > limit then limit else |table| - seen;
            page == Page(table[seen..seen + n], |table| - seen > limit)
  {
    if |table| - seen > limit {
      assert table[seen..][..limit] == table[seen..seen + limit];
    } else {
      assert table[seen..] == table[seen..seen + (|table| - seen)];
    }
  }

  /** Its last row is the cursor for the rows behind it. */
  lemma PageGivesCursor(table: seq<Row>, page: Page, seen: nat)
    requires Listed(table) && page.items != [] && seen + |page.items| <= |table|
    requires page.items == table[seen..seen + |page.items|]
    ensures AfterCursor(table, Some(page.items[|page.items| - 1].id)) == table[seen + |page.items|..]
  {
    var last := seen + |page.items| - 1;
    assert page.items[|page.items| - 1] == table[last];
    CursorIsSuffix(table, last);
  }

  lemma NextPage(table: seq<Row>, cursor: Option<RowId>, limit: nat, seen: nat)
    requires Listed(table) && limit >= 1 && seen <= |table| && AfterCursor(table, cursor) == table[seen..]
    ensures var page := ListPaginated(table, cursor, limit);
            var n := |page.items|;
            && seen + n <= |table| && page.items == table[seen..seen + n]
            && (page.hasMore ==> n >= 1 && AfterCursor(table, Some(page.items[n - 1].id)) == table[seen + n..])
            && (!page.hasMore ==> seen + n == |table|)
  {
    PageIsNext(table, cursor, limit, seen);
    var page := ListPaginated(table, cursor, limit);
    if page.hasMore {
      PageGivesCursor(table, page, seen);
    }
  }

  // ------------------------------------------------------------------
  // Keys
  // ------------------------------------------------------------------

  /** What a row mirrors, if it is a remote conversation with both ids present and not empty. */
  function KeyOf(row: Row): Option<Key> {
    if row.kind != "remote" || row.extra.None? then None else
    var agentId := row.extra.value.remoteAgentId.GetOr("");
    var sessionKey := row.extra.value.sessionKey.GetOr("");
    if agentId != "" && sessionKey != "" then Some((agentId, sessionKey)) else None
  }

  /** How many rows mirror each key. */
  function KeyBag(table: seq<Row>): multiset<Key> {
    if table == [] then multiset{} else
    (if KeyOf(table[0]).Some? then multiset{KeyOf(table[0]).value} else multiset{}) + KeyBag(table[1..])
  }

  /** A remote conversation of this agent and session; rows with an empty id mirror nothing. */
  predicate Mirrors(row: Row, key: Key) {
    && row.kind == "remote" && row.extra.Some? && key.0 != "" && key.1 != ""
    && row.extra.value.remoteAgentId == Some(key.0) && row.extra.value.sessionKey == Some(key.1)
  }

  function MirroringRows(table: seq<Row>, key: Key): nat {
    if table == [] then 0 else (if Mirrors(table[0], key) then 1 else 0) + MirroringRows(table[1..], key)
  }

  lemma MirrorsIsKey(row: Row, key: Key)
    ensures Mirrors(row, key) <==> KeyOf(row) == Some(key)
  {
  }

  lemma {:induction false} KeyBagIsCount(table: seq<Row>, key: Key)
    ensures KeyBag(table)[key] == MirroringRows(table, key)
  {
    if table != [] {
      hide KeyOf, Mirrors;
      KeyBagIsCount(table[1..], key);
      MirrorsIsKey(table[0], key);
    }
  }

  lemma {:induction false} CountIsExistence(table: seq<Row>, key: Key)
    ensures MirroringRows(table, key) > 0 <==> exists row :: row in table && Mirrors(row, key)
  {
    if table != [] {
      hide Mirrors;
      CountIsExistence(table[1..], key);
      if Mirrors(table[0], key) {
        assert table[0] in table;
      } else if row :| row in table && Mirrors(row, key) {
        assert row in table[1..];
      }
    }
  }

  /** The bag of a table counts, for every key, the rows that mirror it. */
  lemma KeyBagCounts(table: seq<Row>, key: Key)
    ensures KeyBag(table)[key] == MirroringRows(table, key)
    ensures key in KeyBag(table) <==> exists row :: row in table && Mirrors(row, key)
  {
    hide KeyBag, MirroringRows, Mirrors;
    KeyBagIsCount(table, key);
    CountIsExistence(table, key);
  }

  lemma {:induction false} KeyBagConcat(a: seq<Row>, b: seq<Row>)
    ensures KeyBag(a + b) == KeyBag(a) + KeyBag(b)
  {
    if a == [] {
      assert a + b == b;
    } else {
      assert (a + b)[1..] == a[1..] + b;
      KeyBagConcat(a[1..], b);
    }
  }

  lemma KeyBagNext(table: seq<Row>, n: nat)
    requires n < |table|
    ensures KeyBag(table[..n + 1]) ==
            KeyBag(table[..n]) + if KeyOf(table[n]).Some? then multiset{KeyOf(table[n]).value} else multiset{}
  {
    KeyBagConcat(table[..n], [table[n]]);
    assert table[..n + 1] == table[..n] + [table[n]] && [table[n]][1..] == [];
  }

  ghost function Keys(table: seq<Row>): set<Key> {
    set key | key in KeyBag(table)
  }

  lemma KeysNext(table: seq<Row>, n: nat)
    requires n < |table|
    ensures Keys(table[..n + 1]) == Keys(table[..n]) + if KeyOf(table[n]).Some? then {KeyOf(table[n]).value} else {}
  {
    KeyBagNext(table, n);
  }

  lemma KeyBagPage(table: seq<Row>, seen: nat, next: nat)
    requires seen <= next <= |table|
    ensures KeyBag(table[..next]) == KeyBag(table[..seen]) + KeyBag(table[seen..next])
  {
    KeyBagConcat(table[..seen], table[seen..next]);
    assert table[..next] == table[..seen] + table[seen..next];
  }

  lemma KeysPage(table: seq<Row>, seen: nat, next: nat)
    requires seen <= next <= |table|
    ensures Keys(table[..next]) == Keys(table[..seen]) + Keys(table[seen..next])
  {
    KeyBagPage(table, seen, next);
  }

  function NewRow(agentId: string, session: Session, draw: Draw): Row {
    var createdAt := session.createdAt.Or(session.updatedAt).GetOr(draw.now);
    Row(draw.id, "remote", session.title.GetOr("Untitled session"),
        Some(Extra(Some(agentId), Some(session.id), Some(session.directory.GetOr("")))),
        createdAt, session.updatedAt.GetOr(createdAt))
  }

  lemma NewRowContents(agentId: string, session: Session, draw: Draw)
    ensures var row := NewRow(agentId, session, draw);
            && row.id == draw.id && row.kind == "remote"
            && row.name == (if session.title.Some? then session.title.value else "Untitled session")
            && row.extra.Some? && row.extra.value.remoteAgentId == Some(agentId)
            && row.extra.value.sessionKey == Some(session.id)
            && row.extra.value.remoteWorkspace == Some(if session.directory.Some? then session.directory.value else "")
  {
  }

  /** Both times come from the session; a single known one stands in for the other, and the clock for neither known. */
  lemma NewRowTimes(agentId: string, session: Session, draw: Draw)
    ensures var row, created, updated := NewRow(agentId, session, draw), session.createdAt, session.updatedAt;
            && (created.Some? ==> row.createdAt == created.value) && (updated.Some? ==> row.updatedAt == updated.value)
            && (created.None? || updated.None? ==> row.createdAt == row.updatedAt)
            && (created.None? && updated.None? ==> row.createdAt == draw.now)
  {
  }

  function Position(table: seq<Row>, row: Row): (k: nat)
    ensures k <= |table|
    ensures forall i | 0 <= i < k :: !Before(row, table[i])
    ensures k < |table| ==> Before(row, table[k])
  {
    if table == [] || Before(row, table[0]) then 0 else 1 + Position(table[1..], row)
  }

  function Insert(table: seq<Row>, row: Row): seq<Row> {
    var k := Position(table, row);
    table[..k] + [row] + table[k..]
  }

  lemma BeforeIsTransitive(a: Row, b: Row, c: Row)
    requires Before(a, b) && Before(b, c)
    ensures Before(a, c)
  {
  }

  /** One of two different ids is before the other. */
  lemma BeforeIsTotal(a: Row, b: Row)
    requires a.id != b.id
    ensures Before(a, b) || Before(b, a)
  {
  }

  /** The rows on either side of where a new one goes. */
  lemma PositionSplits(table: seq<Row>, row: Row, i: nat)
    requires Listed(table) && i < |table| && table[i].id != row.id
    ensures if i < Position(table, row) then Before(table[i], row) else Before(row, table[i])
  {
    hide Before;
    var k := Position(table, row);
    if i < k {
      BeforeIsTotal(table[i], row);
    } else if k < i {
      BeforeIsTransitive(row, table[k], table[i]);
    }
  }

  lemma InsertKeepsListed(table: seq<Row>, row: Row)
    requires Listed(table) && forall i | 0 <= i < |table| :: table[i].id != row.id
    ensures Listed(Insert(table, row))
  {
    hide Before, Position;
    forall i | 0 <= i < |table|
      ensures if i < Position(table, row) then Before(table[i], row) else Before(row, table[i])
    {
      PositionSplits(table, row, i);
    }
  }

  lemma InsertAddsRow(table: seq<Row>, row: Row)
    ensures multiset(Insert(table, row)) == multiset(table) + multiset{row}
    ensures KeyBag(Insert(table, row)) == KeyBag(table) + KeyBag([row])
  {
    var k := Position(table, row);
    assert table == table[..k] + table[k..];
    KeyBagConcat(table[..k] + [row], table[k..]);
    KeyBagConcat(table[..k], [row]);
    KeyBagConcat(table[..k], table[k..]);
  }

  // ------------------------------------------------------------------
  // What a pass is to do
  // ------------------------------------------------------------------

  /** The listed sessions, agent by agent; an agent without an entry in `servers` failed to list. */
  function Targets(agents: seq<Agent>, servers: map<string, seq<Session>>): seq<Target> {
    if agents == [] then [] else
    Targets(agents[..|agents| - 1], servers) + AgentTargets(agents[|agents| - 1], servers)
  }

  function AgentTargets(a: Agent, servers: map<string, seq<Session>>): seq<Target> {
    if a.protocol == "opencode" && a.id in servers then TargetsOf(a.id, servers[a.id]) else []
  }

  function TargetsOf(agentId: string, sessions: seq<Session>): seq<Target> {
    if sessions == [] then [] else
    TargetsOf(agentId, sessions[..|sessions| - 1]) + [(agentId, sessions[|sessions| - 1])]
  }

  function TargetKey(target: Target): Key {
    (target.0, target.1.id)
  }

  datatype Progress = Progress(table: seq<Row>, created: seq<RowId>)

  /** A target is given a row: it was missing when the pass began, and its insert succeeds. */
  predicate Opens(target: Target, keys: set<Key>, draw: Draw) {
    TargetKey(target) !in keys && !draw.fails
  }

  /** The targets that open, inserted one by one. */
  function Mirrored(table: seq<Row>, targets: seq<Target>, keys: set<Key>, draws: seq<Draw>): Progress
    requires |targets| <= |draws|
  {
    if targets == [] then Progress(table, []) else
    var n := |targets| - 1;
    var before := Mirrored(table, targets[..n], keys, draws);
    if Opens(targets[n], keys, draws[n])
    then Progress(Insert(before.table, NewRow(targets[n].0, targets[n].1, draws[n])), before.created + [draws[n].id])
    else before
  }

  ghost predicate Fresh(table: seq<Row>, draws: seq<Draw>) {
    && (forall i, j | 0 <= i < j < |draws| :: draws[i].id != draws[j].id)
    && (forall i, j | 0 <= i < |draws| && 0 <= j < |table| :: draws[i].id != table[j].id)
  }

  // ------------------------------------------------------------------
  // The service object
  // ------------------------------------------------------------------

  class RemoteSessionSync {
    var table: seq<Row>
    var broadcasts: seq<RowId>
    const pageSize: nat

    constructor (table: seq<Row>, pageSize: nat)
      ensures this.table == table && this.pageSize == pageSize && broadcasts == []
    {
      this.table := table;
      this.pageSize := pageSize;
      broadcasts := [];
    }

    /** Reads every page and returns the keys of the whole table. */
    method ExistingSessionKeys() returns (keys: set<Key>)
      requires Listed(table) && pageSize >= 1
      ensures keys == Keys(table)
      ensures forall key :: key in keys <==> exists row :: row in table && Mirrors(row, key)
    {
      keys := {};
      var cursor: Option<RowId> := None;
      ghost var seen := 0;
      var more := true;
      while more
        invariant 0 <= seen <= |table| && (more || seen == |table|)
        invariant more ==> AfterCursor(table, cursor) == table[seen..]
        invariant keys == Keys(table[..seen])
        decreases |table| - seen, more
      {
        var page := ListPaginated(table, cursor, pageSize);
        NextPage(table, cursor, pageSize, seen);
        keys := CollectKeys(page.items, keys);
        KeysPage(table, seen, seen + |page.items|);
        more := page.hasMore;
        if more {
          cursor := Some(page.items[|page.items| - 1].id);
        }
        seen := seen + |page.items|;
      }
      assert table[..seen] == table;
      forall key ensures key in keys <==> exists row :: row in table && Mirrors(row, key) {
        KeyBagCounts(table, key);
      }
    }

    static method CollectKeys(items: seq<Row>, soFar: set<Key>) returns (keys: set<Key>)
      ensures keys == soFar + Keys(items)
    {
      keys := soFar;
      for i := 0 to |items|
        invariant keys == soFar + Keys(items[..i])
      {
        var key := KeyOf(items[i]);
        KeysNext(items, i);
        if key.Some? {
          keys := keys + {key.value};
        }
      }
      assert items[..|items|] == items;
    }

    method InsertConversation(agentId: string, session: Session, draw: Draw) returns (r: Result<RowId, SyncError>)
      modifies this`table
      ensures r.Failure? <==> draw.fails
      ensures r.Failure? ==> table == old(table)
      ensures r.Success? ==> r.value == draw.id && table == Insert(old(table), NewRow(agentId, session, draw))
    {
      if draw.fails {
        return Failure(InsertFailed);
      }
      table := Insert(table, NewRow(agentId, session, draw));
      r := Success(draw.id);
    }

    /** Where a pass stands after the targets `done`: they are mirrored, and each new row was broadcast. */
    ghost predicate Standing(start: seq<Row>, sent: seq<RowId>, done: seq<Target>,
                             keys: set<Key>, draws: seq<Draw>)
      reads this
      requires |done| <= |draws|
    {
      var p := Mirrored(start, done, keys, draws);
      table == p.table && broadcasts == sent + p.created
    }

    /** One listed session: skipped, inserted and broadcast, or left out with a warning. */
    method SyncSession(agentId: string, session: Session, existing: set<Key>, draws: seq<Draw>,
                       next: nat, ghost start: seq<Row>, ghost sent: seq<RowId>, ghost done: seq<Target>)
        returns (created: nat)
      requires next == |done| < |draws|
      requires Standing(start, sent, done, existing, draws)
      modifies this
      ensures Standing(start, sent, done + [(agentId, session)], existing, draws)
      ensures created == |broadcasts| - |old(broadcasts)|
    {
      MirroredSnoc(start, done, (agentId, session), existing, draws);
      created := 0;
      if (agentId, session.id) !in existing {
        var inserted := InsertConversation(agentId, session, draws[next]);
        if inserted.Success? {
          created := 1;
          broadcasts := broadcasts + [inserted.value];
        }
      }
    }

    method SyncAgent(agentId: string, sessions: seq<Session>, existing: set<Key>, draws: seq<Draw>,
                     next: nat, ghost start: seq<Row>, ghost sent: seq<RowId>, ghost done: seq<Target>)
        returns (created: nat)
      requires next == |done| && |done| + |sessions| <= |draws|
      requires Standing(start, sent, done, existing, draws)
      modifies this
      ensures |TargetsOf(agentId, sessions)| == |sessions|
      ensures Standing(start, sent, done + TargetsOf(agentId, sessions), existing, draws)
      ensures created == |broadcasts| - |old(broadcasts)|
    {
      created := 0;
      ghost var soFar := done;
      for j := 0 to |sessions|
        invariant soFar == done + TargetsOf(agentId, sessions[..j]) && |soFar| == next + j
        invariant Standing(start, sent, soFar, existing, draws)
        invariant created == |broadcasts| - |old(broadcasts)|
      {
        var n := SyncSession(agentId, sessions[j], existing, draws, next + j, start, sent, soFar);
        created := created + n;
        assert sessions[..j + 1][..j] == sessions[..j];
        soFar := soFar + [(agentId, sessions[j])];
      }
      assert sessions[..|sessions|] == sessions;
    }

    /**
     One pass.  `agents` is the agent repository's answer, `tableFails` whether listing conversations
     fails, `draws` what its inserts draw.
     */
    method SyncOnce(agents: Result<seq<Agent>, SyncError>, servers: map<string, seq<Session>>,
                    tableFails: bool, draws: seq<Draw>) returns (r: Result<nat, SyncError>)
      requires Listed(table) && pageSize >= 1
      requires agents.Success? ==> |Targets(agents.value, servers)| <= |draws|
      modifies this
      ensures agents.Failure? ==> r == Failure(agents.error) && table == old(table) && broadcasts == old(broadcasts)
      ensures agents.Success? && (forall a | a in agents.value :: a.protocol != "opencode") ==>
                r == Success(0) && table == old(table) && broadcasts == old(broadcasts)
      ensures agents.Success? && (exists a | a in agents.value :: a.protocol == "opencode") && tableFails ==>
                r == Failure(ConversationListFailed) && table == old(table) && broadcasts == old(broadcasts)
      ensures agents.Success? && (exists a | a in agents.value :: a.protocol == "opencode") && !tableFails ==>
                var p := Pass(old(table), Targets(agents.value, servers), draws);
                r == Success(|p.created|) && table == p.table && broadcasts == old(broadcasts) + p.created
    {
      if agents.Failure? {
        return Failure(agents.error);
      }
      var opencode := OpenCodeOnly(agents.value);
      OnlyOpenCodeMatters(agents.value, servers);
      if opencode == [] {
        return Success(0);
      }
      assert opencode[0] in opencode;
      if tableFails {
        return Failure(ConversationListFailed);
      }
      var existing := ExistingSessionKeys();
      var created := SyncAgents(opencode, servers, existing, draws);
      r := Success(created);
    }

    method SyncAgents(opencode: seq<Agent>, servers: map<string, seq<Session>>, existing: set<Key>,
                      draws: seq<Draw>) returns (created: nat)
      requires |Targets(opencode, servers)| <= |draws|
      requires forall a | a in opencode :: a.protocol == "opencode"
      modifies this
      ensures Standing(old(table), old(broadcasts), Targets(opencode, servers), existing, draws)
      ensures created == |broadcasts| - |old(broadcasts)|
    {
      created := 0;
      var next := 0;
      for i := 0 to |opencode|
        invariant next == |Targets(opencode[..i], servers)| <= |draws|
        invariant Standing(old(table), old(broadcasts), Targets(opencode[..i], servers), existing, draws)
        invariant created == |broadcasts| - |old(broadcasts)|
      {
        var agent := opencode[i];
        ghost var done := Targets(opencode[..i], servers);
        NextAgent(opencode, servers, i);
        assert agent in opencode;
        if agent.id in servers {
          TargetsOfLength(agent.id, servers[agent.id]);
          var n := SyncAgent(agent.id, servers[agent.id], existing, draws, next, old(table), old(broadcasts), done);
          next := next + |servers[agent.id]|;
          created := created + n;
        } else {
          assert done + [] == done;
        }
      }
      assert opencode[..|opencode|] == opencode;
    }
  }

  lemma MirroredSnoc(table: seq<Row>, targets: seq<Target>, target: Target, keys: set<Key>, draws: seq<Draw>)
    requires |targets| < |draws|
    ensures var before, draw := Mirrored(table, targets, keys, draws), draws[|targets|];
            Mirrored(table, targets + [target], keys, draws) ==
            if Opens(target, keys, draw)
            then Progress(Insert(before.table, NewRow(target.0, target.1, draw)), before.created + [draw.id])
            else before
  {
    assert (targets + [target])[..|targets|] == targets;
  }

  lemma {:induction false} TargetsOfLength(agentId: string, sessions: seq<Session>)
    ensures |TargetsOf(agentId, sessions)| == |sessions|
  {
    if sessions != [] {
      TargetsOfLength(agentId, sessions[..|sessions| - 1]);
    }
  }

  /** One pass over the targets with the keys found in the table. */
  ghost function Pass(table: seq<Row>, targets: seq<Target>, draws: seq<Draw>): Progress
    requires |targets| <= |draws|
  {
    Mirrored(table, targets, Keys(table), draws)
  }

  function OpenCodeOnly(agents: seq<Agent>): seq<Agent> {
    if agents == [] then [] else
    OpenCodeOnly(agents[..|agents| - 1]) +
    if agents[|agents| - 1].protocol == "opencode" then [agents[|agents| - 1]] else []
  }

  lemma TargetsSnoc(agents: seq<Agent>, a: Agent, servers: map<string, seq<Session>>)
    ensures Targets(agents + [a], servers) == Targets(agents, servers) + AgentTargets(a, servers)
  {
    assert (agents + [a])[..|agents|] == agents;
  }

  lemma NextAgent(agents: seq<Agent>, servers: map<string, seq<Session>>, i: nat)
    requires i < |agents|
    ensures Targets(agents[..i + 1], servers) == Targets(agents[..i], servers) + AgentTargets(agents[i], servers)
    ensures |Targets(agents[..i + 1], servers)| <= |Targets(agents, servers)|
  {
    hide Targets, AgentTargets;
    NoMoreThanAll(agents, servers, i + 1);
    assert agents[..i + 1] == agents[..i] + [agents[i]];
    TargetsSnoc(agents[..i], agents[i], servers);
  }

  lemma NoMoreThanAll(agents: seq<Agent>, servers: map<string, seq<Session>>, i: nat)
    requires i <= |agents|
    ensures |Targets(agents[..i], servers)| <= |Targets(agents, servers)|
  {
    hide Targets;
    TargetsPrefix(agents, servers, i);
  }

  lemma OpenCodeLast(agents: seq<Agent>)
    requires agents != []
    ensures OpenCodeOnly(agents) == OpenCodeOnly(agents[..|agents| - 1])
            + if agents[|agents| - 1].protocol == "opencode" then [agents[|agents| - 1]] else []
  {
  }

  lemma {:induction false} OpenCodeMembers(agents: seq<Agent>)
    ensures forall a :: a in OpenCodeOnly(agents) <==> a in agents && a.protocol == "opencode"
  {
    if agents != [] {
      OpenCodeMembers(agents[..|agents| - 1]);
      OpenCodeLast(agents);
      hide OpenCodeOnly;
      assert agents == agents[..|agents| - 1] + [agents[|agents| - 1]];
    }
  }

  /** An agent more, kept or not, adds the same targets. */
  lemma OpenCodeStep(kept: seq<Agent>, all: seq<Agent>, a: Agent, servers: map<string, seq<Session>>)
    requires Targets(kept, servers) == Targets(all, servers)
    ensures Targets(kept + if a.protocol == "opencode" then [a] else [], servers) == Targets(all + [a], servers)
  {
    TargetsSnoc(all, a, servers);
    TargetsSnoc(kept, a, servers);
    hide Targets;
    assert kept + [] == kept && Targets(all, servers) + [] == Targets(all, servers);
  }

  lemma {:induction false} OpenCodeTargets(agents: seq<Agent>, servers: map<string, seq<Session>>)
    ensures Targets(OpenCodeOnly(agents), servers) == Targets(agents, servers)
  {
    if agents != [] {
      hide Targets, OpenCodeOnly;
      var init, a := agents[..|agents| - 1], agents[|agents| - 1];
      OpenCodeTargets(init, servers);
      OpenCodeStep(OpenCodeOnly(init), init, a, servers);
      OpenCodeLast(agents);
      assert agents == init + [a];
    }
  }

  lemma OnlyOpenCodeMatters(agents: seq<Agent>, servers: map<string, seq<Session>>)
    ensures Targets(OpenCodeOnly(agents), servers) == Targets(agents, servers)
    ensures forall a :: a in OpenCodeOnly(agents) <==> a in agents && a.protocol == "opencode"
  {
    hide Targets, OpenCodeOnly;
    OpenCodeTargets(agents, servers);
    OpenCodeMembers(agents);
  }

  lemma {:induction false} TargetsPrefix(agents: seq<Agent>, servers: map<string, seq<Session>>, i: nat)
    requires i <= |agents|
    ensures Targets(agents[..i], servers) <= Targets(agents, servers)
  {
    if i < |agents| {
      TargetsPrefix(agents[..|agents| - 1], servers, i);
      assert agents[..|agents| - 1][..i] == agents[..i];
    } else {
      assert agents[..i] == agents;
    }
  }

  // ------------------------------------------------------------------
  // What a pass achieves
  // ------------------------------------------------------------------

  /** A key that a row can be found by again. */
  predicate Recordable(key: Key) {
    key.0 != "" && key.1 != ""
  }

  function TargetBag(targets: seq<Target>): multiset<Key> {
    if targets == [] then multiset{} else
    TargetBag(targets[..|targets| - 1]) + multiset{TargetKey(targets[|targets| - 1])}
  }

  /** The targets that open. */
  function Opened(targets: seq<Target>, keys: set<Key>, draws: seq<Draw>): seq<Target>
    requires |targets| <= |draws|
  {
    if targets == [] then [] else
    var n := |targets| - 1;
    Opened(targets[..n], keys, draws) + if Opens(targets[n], keys, draws[n]) then [targets[n]] else []
  }

  /** The rows a pass makes, in order. */
  function NewRows(targets: seq<Target>, keys: set<Key>, draws: seq<Draw>): seq<Row>
    requires |targets| <= |draws|
  {
    if targets == [] then [] else
    var n := |targets| - 1;
    NewRows(targets[..n], keys, draws)
    + if Opens(targets[n], keys, draws[n]) then [NewRow(targets[n].0, targets[n].1, draws[n])] else []
  }

  predicate Reliable(draws: seq<Draw>) {
    forall i | 0 <= i < |draws| :: !draws[i].fails
  }

  lemma NewRowKey(target: Target, draw: Draw)
    ensures KeyBag([NewRow(target.0, target.1, draw)]) ==
            if Recordable(TargetKey(target)) then multiset{TargetKey(target)} else multiset{}
  {
    assert [NewRow(target.0, target.1, draw)][1..] == [];
  }

  /** A pass keeps the listing order and the ids distinct. */
  lemma {:induction false} MirroredStaysListed(table: seq<Row>, targets: seq<Target>, keys: set<Key>, draws: seq<Draw>)
    requires Listed(table) && Fresh(table, draws) && |targets| <= |draws|
    ensures Listed(Mirrored(table, targets, keys, draws).table)
    ensures forall i, j | 0 <= i < |Mirrored(table, targets, keys, draws).table| && |targets| <= j < |draws| ::
              Mirrored(table, targets, keys, draws).table[i].id != draws[j].id
  {
    if targets != [] {
      var n := |targets| - 1;
      MirroredStaysListed(table, targets[..n], keys, draws);
      var before := Mirrored(table, targets[..n], keys, draws).table;
      assert forall i | 0 <= i < |before| :: before[i].id != draws[n].id;
      InsertKeepsListed(before, NewRow(targets[n].0, targets[n].1, draws[n]));
    }
  }

  lemma {:induction false} MirroredBag(table: seq<Row>, targets: seq<Target>, keys: set<Key>, draws: seq<Draw>)
    requires |targets| <= |draws|
    ensures multiset(Mirrored(table, targets, keys, draws).table) ==
            multiset(table) + multiset(NewRows(targets, keys, draws))
  {
    if targets != [] {
      var n := |targets| - 1;
      MirroredBag(table, targets[..n], keys, draws);
      MirroredBagLast(table, targets, keys, draws);
      NewRowsLast(targets, keys, draws);
    }
  }

  lemma MirroredBagLast(table: seq<Row>, targets: seq<Target>, keys: set<Key>, draws: seq<Draw>)
    requires 0 < |targets| <= |draws|
    ensures multiset(Mirrored(table, targets, keys, draws).table) ==
            multiset(Mirrored(table, targets[..|targets| - 1], keys, draws).table) + LastRow(targets, keys, draws)
  {
    hide NewRow, Insert, KeyBag, Opens;
    var n := |targets| - 1;
    InsertAddsRow(Mirrored(table, targets[..n], keys, draws).table, NewRow(targets[n].0, targets[n].1, draws[n]));
  }

  lemma {:induction false} MirroredCounts(table: seq<Row>, targets: seq<Target>, keys: set<Key>, draws: seq<Draw>)
    requires |targets| <= |draws|
    ensures var p := Mirrored(table, targets, keys, draws);
            && |p.created| == |Opened(targets, keys, draws)| == |p.table| - |table|
            && (p.created == [] ==> p.table == table)
  {
    if targets != [] {
      hide NewRow, Opens;
      MirroredCounts(table, targets[..|targets| - 1], keys, draws);
    }
  }

  /** A pass only adds rows, one for each target that opens. */
  lemma MirroredAddsRows(table: seq<Row>, targets: seq<Target>, keys: set<Key>, draws: seq<Draw>)
    requires |targets| <= |draws|
    ensures var p := Mirrored(table, targets, keys, draws);
            && multiset(p.table) == multiset(table) + multiset(NewRows(targets, keys, draws))
            && |p.created| == |Opened(targets, keys, draws)| == |p.table| - |table|
            && (p.created == [] ==> p.table == table)
  {
    hide Mirrored, NewRows, Opened;
    MirroredBag(table, targets, keys, draws);
    MirroredCounts(table, targets, keys, draws);
  }

  lemma BagSnoc<T>(s: seq<T>, x: T, present: bool)
    ensures multiset(s + if present then [x] else []) == multiset(s) + if present then multiset{x} else multiset{}
  {
    assert s + [] == s;
  }

  /** Row counts per key: a key that can be found again gains a row for each of its targets that opens. */
  lemma {:induction false} MirroredKeyCount(table: seq<Row>, targets: seq<Target>, keys: set<Key>, draws: seq<Draw>,
                                            key: Key)
    requires |targets| <= |draws|
    ensures KeyBag(Mirrored(table, targets, keys, draws).table)[key] ==
            KeyBag(table)[key] + if Recordable(key) then TargetBag(Opened(targets, keys, draws))[key] else 0
  {
    if targets != [] {
      var n := |targets| - 1;
      MirroredKeyCount(table, targets[..n], keys, draws, key);
      if Opens(targets[n], keys, draws[n]) {
        InsertAddsRow(Mirrored(table, targets[..n], keys, draws).table, NewRow(targets[n].0, targets[n].1, draws[n]));
        NewRowKey(targets[n], draws[n]);
        TargetBagSnoc(Opened(targets[..n], keys, draws), targets[n]);
      } else {
        assert Opened(targets, keys, draws) == Opened(targets[..n], keys, draws);
      }
    }
  }

  lemma TargetBagSnoc(targets: seq<Target>, target: Target)
    ensures TargetBag(targets + [target]) == TargetBag(targets) + multiset{TargetKey(target)}
  {
    assert (targets + [target])[..|targets|] == targets;
  }

  /** When no insert fails, every target of a missing key opens, and no other. */
  lemma {:induction false} ReliableOpens(targets: seq<Target>, keys: set<Key>, draws: seq<Draw>, key: Key)
    requires |targets| <= |draws| && Reliable(draws)
    ensures TargetBag(Opened(targets, keys, draws))[key] == if key in keys then 0 else TargetBag(targets)[key]
  {
    if targets != [] {
      var n := |targets| - 1;
      ReliableOpens(targets[..n], keys, draws, key);
      if Opens(targets[n], keys, draws[n]) {
        TargetBagSnoc(Opened(targets[..n], keys, draws), targets[n]);
      } else {
        assert Opened(targets, keys, draws) == Opened(targets[..n], keys, draws);
      }
    }
  }

  lemma ReliableKeyCount(table: seq<Row>, targets: seq<Target>, draws: seq<Draw>, key: Key)
    requires |targets| <= |draws| && Reliable(draws)
    ensures KeyBag(Pass(table, targets, draws).table)[key] ==
            KeyBag(table)[key] + if key in Keys(table) || !Recordable(key) then 0 else TargetBag(targets)[key]
  {
    MirroredKeyCount(table, targets, Keys(table), draws, key);
    ReliableOpens(targets, Keys(table), draws, key);
  }

  /** A missing listed session gets exactly one row just when it is listed once: a pass does not see its own rows. */
  lemma OneRowIffListedOnce(table: seq<Row>, targets: seq<Target>, draws: seq<Draw>, key: Key)
    requires |targets| <= |draws| && Reliable(draws)
    requires key in TargetBag(targets) && key !in KeyBag(table) && Recordable(key)
    ensures KeyBag(Pass(table, targets, draws).table)[key] == 1 <==> TargetBag(targets)[key] == 1
  {
    ReliableKeyCount(table, targets, draws, key);
  }

  function Unseen(targets: seq<Target>, keys: set<Key>): set<Key> {
    set key | key in TargetBag(targets) && key !in keys
  }

  /**
   With every session listed once, under a findable key, and inserts succeeding: one row for each key that
   was missing, no change to any other, and the count returned is the number of missing keys.
   */
  lemma PassMirrorsEachMissingOnce(table: seq<Row>, targets: seq<Target>, draws: seq<Draw>)
    requires Listed(table) && Fresh(table, draws) && |targets| <= |draws| && Reliable(draws)
    requires forall key | key in TargetBag(targets) :: TargetBag(targets)[key] == 1 && Recordable(key)
    ensures var p := Pass(table, targets, draws);
            && Listed(p.table) && multiset(table) <= multiset(p.table)
            && |p.created| == |Unseen(targets, Keys(table))|
            && forall key ::
                 KeyBag(p.table)[key] == if key in Unseen(targets, Keys(table)) then 1 else KeyBag(table)[key]
  {
    MirroredStaysListed(table, targets, Keys(table), draws);
    MirroredAddsRows(table, targets, Keys(table), draws);
    forall key
      ensures KeyBag(Pass(table, targets, draws).table)[key] ==
              if key in Unseen(targets, Keys(table)) then 1 else KeyBag(table)[key]
    {
      ReliableKeyCount(table, targets, draws, key);
    }
    OpenIsUnseen(targets, Keys(table), draws);
  }

  lemma {:induction false} OpenIsUnseen(targets: seq<Target>, keys: set<Key>, draws: seq<Draw>)
    requires |targets| <= |draws| && Reliable(draws) && forall key :: TargetBag(targets)[key] <= 1
    ensures |Opened(targets, keys, draws)| == |Unseen(targets, keys)|
  {
    if targets != [] {
      var init, last := targets[..|targets| - 1], TargetKey(targets[|targets| - 1]);
      forall key ensures TargetBag(init)[key] <= 1 {
        assert TargetBag(targets)[key] <= 1;
      }
      assert TargetBag(targets)[last] == TargetBag(init)[last] + 1;
      OpenIsUnseen(init, keys, draws);
      UnseenSnoc(targets, keys);
    }
  }

  lemma UnseenSnoc(targets: seq<Target>, keys: set<Key>)
    requires targets != [] && TargetKey(targets[|targets| - 1]) !in TargetBag(targets[..|targets| - 1])
    ensures |Unseen(targets, keys)| ==
            |Unseen(targets[..|targets| - 1], keys)| + if TargetKey(targets[|targets| - 1]) in keys then 0 else 1
  {
    var before, last := Unseen(targets[..|targets| - 1], keys), TargetKey(targets[|targets| - 1]);
    if last in keys {
      assert Unseen(targets, keys) == before;
    } else {
      assert Unseen(targets, keys) == before + {last};
    }
  }

  /** How many listed sessions can never be found again, having an empty agent or session id. */
  function Unrecordable(targets: seq<Target>): nat {
    if targets == [] then 0 else
    Unrecordable(targets[..|targets| - 1]) + if Recordable(TargetKey(targets[|targets| - 1])) then 0 else 1
  }

  /** Syncing unchanged servers again creates exactly the rows for unfindable sessions once more. */
  lemma SecondPassCreates(table: seq<Row>, targets: seq<Target>, draws: seq<Draw>, again: seq<Draw>)
    requires |targets| <= |draws| && |targets| <= |again| && Reliable(draws) && Reliable(again)
    ensures var first := Pass(table, targets, draws).table;
            var second := Pass(first, targets, again);
            && |second.created| == Unrecordable(targets)
            && (second.created == [] ==> second.table == first)
  {
    var first := Pass(table, targets, draws).table;
    MirroredAddsRows(first, targets, Keys(first), again);
    forall key | key in TargetBag(targets) ensures key in Keys(first) <==> Recordable(key) {
      ReliableKeyCount(table, targets, draws, key);
      KeyBagRecordable(table, key);
    }
    OpenIsUnrecordable(targets, Keys(first), again);
  }

  lemma {:induction false} KeyBagRecordable(table: seq<Row>, key: Key)
    ensures key in KeyBag(table) ==> Recordable(key)
  {
    if table != [] {
      KeyBagRecordable(table[1..], key);
    }
  }

  lemma {:induction false} OpenIsUnrecordable(targets: seq<Target>, keys: set<Key>, draws: seq<Draw>)
    requires |targets| <= |draws| && Reliable(draws)
    requires forall key | key in TargetBag(targets) :: key in keys <==> Recordable(key)
    ensures |Opened(targets, keys, draws)| == Unrecordable(targets)
  {
    if targets != [] {
      assert TargetKey(targets[|targets| - 1]) in TargetBag(targets);
      OpenIsUnrecordable(targets[..|targets| - 1], keys, draws);
    }
  }

  // ------------------------------------------------------------------
  // What a pass does with agents and their listings
  // ------------------------------------------------------------------

  lemma TimesSucc(n: nat, m: nat)
    ensures (n + 1) * m == n * m + m
  {
  }

  lemma {:induction false} TargetsOfCount(agentId: string, sessions: seq<Session>, target: Target)
    ensures multiset(TargetsOf(agentId, sessions))[target] ==
            if target.0 == agentId then multiset(sessions)[target.1] else 0
  {
    if sessions != [] {
      var init, last := sessions[..|sessions| - 1], sessions[|sessions| - 1];
      TargetsOfCount(agentId, init, target);
      BagSnoc(TargetsOf(agentId, init), (agentId, last), true);
      BagSnoc(init, last, true);
      assert sessions == init + [last];
    }
  }

  /** How often a session is in the listing of an agent; none is when there is no listing. */
  function ListedTimes(servers: map<string, seq<Session>>, target: Target): nat {
    if target.0 in servers then multiset(servers[target.0])[target.1] else 0
  }

  lemma BagConcat<T>(a: seq<T>, b: seq<T>, x: T)
    ensures multiset(a + b)[x] == multiset(a)[x] + multiset(b)[x]
  {
  }

  lemma AgentTargetsCount(a: Agent, servers: map<string, seq<Session>>, target: Target)
    ensures multiset(AgentTargets(a, servers))[target] ==
            if a == Agent(target.0, "opencode") then ListedTimes(servers, target) else 0
  {
    if a.id in servers {
      TargetsOfCount(a.id, servers[a.id], target);
    }
  }

  lemma NoTargets(servers: map<string, seq<Session>>)
    ensures Targets([], servers) == []
  {
  }

  lemma TargetsLast(agents: seq<Agent>, servers: map<string, seq<Session>>)
    requires agents != []
    ensures Targets(agents, servers) ==
            Targets(agents[..|agents| - 1], servers) + AgentTargets(agents[|agents| - 1], servers)
  {
  }

  lemma BagLast<T>(s: seq<T>, x: T)
    requires s != []
    ensures multiset(s)[x] == multiset(s[..|s| - 1])[x] + if s[|s| - 1] == x then 1 else 0
  {
    assert s == s[..|s| - 1] + [s[|s| - 1]];
  }

  /** Every listing of every opencode agent is gone through, session by session, and nothing else is. */
  lemma {:induction false} TargetsCount(agents: seq<Agent>, servers: map<string, seq<Session>>, target: Target)
    ensures multiset(Targets(agents, servers))[target] ==
            multiset(agents)[Agent(target.0, "opencode")] * ListedTimes(servers, target)
  {
    if agents != [] {
      TargetsLast(agents, servers);
      hide Targets, AgentTargets, ListedTimes;
      var init, a := agents[..|agents| - 1], agents[|agents| - 1];
      TargetsCount(init, servers, target);
      BagConcat(Targets(init, servers), AgentTargets(a, servers), target);
      AgentTargetsCount(a, servers, target);
      BagLast(agents, Agent(target.0, "opencode"));
      TimesSucc(multiset(init)[Agent(target.0, "opencode")], ListedTimes(servers, target));
    }
  }

  /** The sessions come in the order of the agents, and for each agent in the order of its listing. */
  lemma {:induction false} TargetsConcat(a: seq<Agent>, b: seq<Agent>, servers: map<string, seq<Session>>)
    ensures Targets(a + b, servers) == Targets(a, servers) + Targets(b, servers)
  {
    NoTargets(servers);
    hide Targets, AgentTargets;
    if b == [] {
      assert a + b == a;
    } else {
      var init, last := b[..|b| - 1], b[|b| - 1];
      TargetsConcat(a, init, servers);
      TargetsLast(b, servers);
      TargetsSnoc(a + init, last, servers);
      assert a + b == a + init + [last];
    }
  }

  lemma {:induction false} TargetsOfAt(agentId: string, sessions: seq<Session>, i: nat)
    requires i < |sessions|
    ensures |TargetsOf(agentId, sessions)| == |sessions| && TargetsOf(agentId, sessions)[i] == (agentId, sessions[i])
  {
    var init := sessions[..|sessions| - 1];
    TargetsOfLength(agentId, init);
    if i < |init| {
      TargetsOfAt(agentId, init, i);
    }
  }

  lemma TargetsOfOneAgent(id: string, servers: map<string, seq<Session>>, i: nat)
    requires id in servers && i < |servers[id]|
    ensures var targets := Targets([Agent(id, "opencode")], servers);
            |targets| == |servers[id]| && targets[i] == (id, servers[id][i])
  {
    var a := Agent(id, "opencode");
    TargetsOfAt(id, servers[id], i);
    assert [a][..0] == [] && Targets([], servers) == [];
    assert Targets([a], servers) == [] + AgentTargets(a, servers);
  }

  /** This key belongs to a session that an opencode agent lists. */
  ghost predicate IsListed(agents: seq<Agent>, servers: map<string, seq<Session>>, key: Key) {
    && Agent(key.0, "opencode") in agents && key.0 in servers
    && exists session :: session in servers[key.0] && session.id == key.1
  }

  lemma {:induction false} TargetBagMember(targets: seq<Target>, key: Key)
    ensures key in TargetBag(targets) <==> exists target :: target in targets && TargetKey(target) == key
  {
    if targets != [] {
      var init, last := targets[..|targets| - 1], targets[|targets| - 1];
      TargetBagMember(init, key);
      assert targets == init + [last];
      if target :| target in targets && TargetKey(target) == key {
        assert target in init || target == last;
      }
    }
  }

  lemma TargetMember(agents: seq<Agent>, servers: map<string, seq<Session>>, target: Target)
    ensures target in Targets(agents, servers) <==>
            Agent(target.0, "opencode") in agents && target.0 in servers && target.1 in servers[target.0]
  {
    TargetsCount(agents, servers, target);
    assert target in Targets(agents, servers) <==> multiset(Targets(agents, servers))[target] > 0;
    assert Agent(target.0, "opencode") in agents <==> multiset(agents)[Agent(target.0, "opencode")] > 0;
    PositiveTimes(multiset(agents)[Agent(target.0, "opencode")], ListedTimes(servers, target));
  }

  lemma PositiveTimes(n: nat, m: nat)
    ensures n * m > 0 <==> n > 0 && m > 0
  {
  }

  lemma TargetBagIsListed(agents: seq<Agent>, servers: map<string, seq<Session>>, key: Key)
    ensures key in TargetBag(Targets(agents, servers)) <==> IsListed(agents, servers, key)
  {
    var targets := Targets(agents, servers);
    TargetBagMember(targets, key);
    if target :| target in targets && TargetKey(target) == key {
      TargetMember(agents, servers, target);
    }
    if IsListed(agents, servers, key) {
      var session :| session in servers[key.0] && session.id == key.1;
      TargetMember(agents, servers, (key.0, session));
      assert TargetKey((key.0, session)) == key;
    }
  }

  /** Agents have their own nonempty ids, and so have the sessions of each listing. */
  ghost predicate IdsFit(agents: seq<Agent>, servers: map<string, seq<Session>>) {
    && (forall a | a in agents && a.protocol == "opencode" :: a.id != "" && multiset(agents)[a] == 1)
    && ListingsFit(agents, servers)
  }

  ghost predicate ListingsFit(agents: seq<Agent>, servers: map<string, seq<Session>>) {
    forall i | 0 <= i < |agents| && agents[i].protocol == "opencode" && agents[i].id in servers ::
      SessionsFit(servers[agents[i].id])
  }

  ghost predicate SessionsFit(sessions: seq<Session>) {
    && (forall i, j | 0 <= i < j < |sessions| :: sessions[i].id != sessions[j].id)
    && (forall i | 0 <= i < |sessions| :: sessions[i].id != "")
  }

  lemma {:induction false} SessionKeyOnce(agentId: string, sessions: seq<Session>, key: Key)
    requires SessionsFit(sessions)
    ensures TargetBag(TargetsOf(agentId, sessions))[key] <= if key.0 == agentId then 1 else 0
    ensures (forall i | 0 <= i < |sessions| :: sessions[i].id != key.1) ==>
              TargetBag(TargetsOf(agentId, sessions))[key] == 0
  {
    if sessions != [] {
      var init, last := sessions[..|sessions| - 1], sessions[|sessions| - 1];
      SessionKeyOnce(agentId, init, key);
      TargetBagSnoc(TargetsOf(agentId, init), (agentId, last));
    }
  }

  lemma AgentKeyOnce(a: Agent, servers: map<string, seq<Session>>, key: Key)
    requires a.protocol == "opencode" && a.id in servers ==> SessionsFit(servers[a.id])
    ensures TargetBag(AgentTargets(a, servers))[key] <= if a == Agent(key.0, "opencode") then 1 else 0
  {
    if a.protocol == "opencode" && a.id in servers {
      SessionKeyOnce(a.id, servers[a.id], key);
    }
  }

  lemma {:induction false} TargetBagConcat(a: seq<Target>, b: seq<Target>)
    ensures TargetBag(a + b) == TargetBag(a) + TargetBag(b)
  {
    if b == [] {
      assert a + b == a;
    } else {
      assert (a + b)[..|a + b| - 1] == a + b[..|b| - 1];
      TargetBagConcat(a, b[..|b| - 1]);
    }
  }

  lemma {:induction false} KeyOnce(agents: seq<Agent>, servers: map<string, seq<Session>>, key: Key)
    requires ListingsFit(agents, servers)
    ensures TargetBag(Targets(agents, servers))[key] <= multiset(agents)[Agent(key.0, "opencode")]
  {
    if agents != [] {
      TargetsLast(agents, servers);
      hide Targets, AgentTargets, TargetBag, SessionsFit;
      var init, a := agents[..|agents| - 1], agents[|agents| - 1];
      KeyOnce(init, servers, key);
      AgentKeyOnce(a, servers, key);
      TargetBagConcat(Targets(init, servers), AgentTargets(a, servers));
      BagLast(agents, Agent(key.0, "opencode"));
    }
  }

  lemma ListedKeysFit(agents: seq<Agent>, servers: map<string, seq<Session>>, key: Key)
    requires IdsFit(agents, servers) && key in TargetBag(Targets(agents, servers))
    ensures TargetBag(Targets(agents, servers))[key] == 1 && Recordable(key)
  {
    TargetBagIsListed(agents, servers, key);
    KeyOnce(agents, servers, key);
  }

  /** A target that opens has its row in the table afterwards. */
  lemma {:induction false} OpenedHasRow(table: seq<Row>, targets: seq<Target>, keys: set<Key>, draws: seq<Draw>, i: nat)
    requires i < |targets| <= |draws| && Opens(targets[i], keys, draws[i])
    ensures NewRow(targets[i].0, targets[i].1, draws[i]) in Mirrored(table, targets, keys, draws).table
  {
    hide NewRow, Mirrored, Opens;
    MirroredBag(table, targets, keys, draws);
    OpenedIsNew(targets, keys, draws, i);
    var row := NewRow(targets[i].0, targets[i].1, draws[i]);
    assert row in multiset(NewRows(targets, keys, draws));
    assert row in multiset(Mirrored(table, targets, keys, draws).table);
  }

  lemma {:induction false} OpenedIsNew(targets: seq<Target>, keys: set<Key>, draws: seq<Draw>, i: nat)
    requires i < |targets| <= |draws| && Opens(targets[i], keys, draws[i])
    ensures NewRow(targets[i].0, targets[i].1, draws[i]) in NewRows(targets, keys, draws)
  {
    hide NewRow;
    if i < |targets| - 1 {
      OpenedIsNew(targets[..|targets| - 1], keys, draws, i);
    }
  }

  function RowIds(rows: seq<Row>): seq<RowId> {
    if rows == [] then [] else RowIds(rows[..|rows| - 1]) + [rows[|rows| - 1].id]
  }

  /** What a pass reports as created, and broadcasts, are the ids of the rows it made, in order. */
  lemma {:induction false} CreatedAreNewRows(table: seq<Row>, targets: seq<Target>, keys: set<Key>, draws: seq<Draw>)
    requires |targets| <= |draws|
    ensures Mirrored(table, targets, keys, draws).created == RowIds(NewRows(targets, keys, draws))
  {
    if targets != [] {
      hide Insert, Opens;
      var n := |targets| - 1;
      CreatedAreNewRows(table, targets[..n], keys, draws);
      var rows, row := NewRows(targets[..n], keys, draws), NewRow(targets[n].0, targets[n].1, draws[n]);
      assert (rows + [row])[..|rows|] == rows && rows + [] == rows;
    }
  }

  /** Some row of the table was made for this session of this agent. */
  ghost predicate HasRowFor(table: seq<Row>, agentId: string, session: Session, draws: seq<Draw>) {
    exists draw :: draw in draws && NewRow(agentId, session, draw) in table
  }

  /**
   With ids that fit and inserts that succeed, a pass leaves exactly one row for each listed session that was
   missing, makes it from that session, changes no other count, and reports how many were missing.
   */
  lemma PassMirrorsEveryListing(table: seq<Row>, agents: seq<Agent>, servers: map<string, seq<Session>>,
                                draws: seq<Draw>)
    requires Listed(table) && |Targets(agents, servers)| <= |draws| && Fresh(table, draws) && Reliable(draws)
    requires IdsFit(agents, servers)
    ensures var p := Pass(table, Targets(agents, servers), draws);
            var missing := Unseen(Targets(agents, servers), Keys(table));
            && Listed(p.table) && multiset(table) <= multiset(p.table) && |p.created| == |missing|
            && (forall key :: key in missing <==>
                  IsListed(agents, servers, key) && !exists row :: row in table && Mirrors(row, key))
            && (forall key :: MirroringRows(p.table, key) == if key in missing then 1 else MirroringRows(table, key))
    ensures forall id: string, session: Session ::
              (id, session.id) in Unseen(Targets(agents, servers), Keys(table))
              && id in servers && session in servers[id] ==>
                HasRowFor(Pass(table, Targets(agents, servers), draws).table, id, session, draws)
  {
    hide Targets, TargetBag, KeyBag, Mirrored, MirroringRows, Mirrors, Listed, Fresh, IdsFit, HasRowFor, IsListed;
    var targets := Targets(agents, servers);
    forall key | key in TargetBag(targets) ensures TargetBag(targets)[key] == 1 && Recordable(key) {
      ListedKeysFit(agents, servers, key);
    }
    PassMirrorsEachMissingOnce(table, targets, draws);
    var p, missing := Pass(table, targets, draws), Unseen(targets, Keys(table));
    forall key
      ensures key in missing <==> IsListed(agents, servers, key) && !exists row :: row in table && Mirrors(row, key)
      ensures MirroringRows(p.table, key) == if key in missing then 1 else MirroringRows(table, key)
    {
      TargetBagIsListed(agents, servers, key);
      KeyBagCounts(table, key);
      KeyBagCounts(p.table, key);
    }
    forall id: string, session: Session | (id, session.id) in missing && id in servers && session in servers[id]
      ensures HasRowFor(p.table, id, session, draws)
    {
      MissingHasRow(table, agents, servers, draws, id, session);
    }
  }

  lemma MissingHasRow(table: seq<Row>, agents: seq<Agent>, servers: map<string, seq<Session>>, draws: seq<Draw>,
                      id: string, session: Session)
    requires |Targets(agents, servers)| <= |draws| && Reliable(draws)
    requires (id, session.id) in Unseen(Targets(agents, servers), Keys(table))
    requires id in servers && session in servers[id]
    ensures HasRowFor(Pass(table, Targets(agents, servers), draws).table, id, session, draws)
  {
    var targets := Targets(agents, servers);
    TargetBagIsListed(agents, servers, (id, session.id));
    TargetMember(agents, servers, (id, session));
    var i :| 0 <= i < |targets| && targets[i] == (id, session);
    OpenedHasRow(table, targets, Keys(table), draws, i);
    assert draws[i] in draws;
  }

  /** A second pass over unchanged servers then creates nothing and leaves the table as it was. */
  lemma SecondPassIsIdle(table: seq<Row>, agents: seq<Agent>, servers: map<string, seq<Session>>,
                         draws: seq<Draw>, again: seq<Draw>)
    requires |Targets(agents, servers)| <= |draws| && |Targets(agents, servers)| <= |again|
    requires Reliable(draws) && Reliable(again) && IdsFit(agents, servers)
    ensures var first := Pass(table, Targets(agents, servers), draws).table;
            Pass(first, Targets(agents, servers), again) == Progress(first, [])
  {
    hide Targets, IdsFit, Reliable;
    var targets := Targets(agents, servers);
    forall key | key in TargetBag(targets) ensures Recordable(key) {
      ListedKeysFit(agents, servers, key);
    }
    AllRecordable(targets);
    SecondPassCreates(table, targets, draws, again);
  }

  lemma {:induction false} AllRecordable(targets: seq<Target>)
    requires forall key | key in TargetBag(targets) :: Recordable(key)
    ensures Unrecordable(targets) == 0
  {
    if targets != [] {
      assert TargetKey(targets[|targets| - 1]) in TargetBag(targets);
      AllRecordable(targets[..|targets| - 1]);
    }
  }

  // ------------------------------------------------------------------
  // One agent's failure
  // ------------------------------------------------------------------

  function OtherTargets(targets: seq<Target>, agentId: string): seq<Target> {
    if targets == [] then [] else
    var n := |targets| - 1;
    OtherTargets(targets[..n], agentId) + if targets[n].0 == agentId then [] else [targets[n]]
  }

  /** What the inserts of the other agents draw. */
  function OtherDraws(targets: seq<Target>, draws: seq<Draw>, agentId: string): (r: seq<Draw>)
    requires |targets| <= |draws|
    ensures |r| == |OtherTargets(targets, agentId)|
  {
    if targets == [] then [] else
    var n := |targets| - 1;
    OtherDraws(targets[..n], draws, agentId) + if targets[n].0 == agentId then [] else [draws[n]]
  }

  /** The rows made for one agent. */
  function OwnRows(targets: seq<Target>, keys: set<Key>, draws: seq<Draw>, agentId: string): (r: seq<Row>)
    requires |targets| <= |draws|
    ensures forall row | row in r :: row.extra.Some? && row.extra.value.remoteAgentId == Some(agentId)
  {
    if targets == [] then [] else
    var n := |targets| - 1;
    OwnRows(targets[..n], keys, draws, agentId)
    + if targets[n].0 == agentId && Opens(targets[n], keys, draws[n])
      then [NewRow(targets[n].0, targets[n].1, draws[n])] else []
  }

  /** Only the first draws matter. */
  lemma {:induction false} NewRowsPrefix(targets: seq<Target>, keys: set<Key>, draws: seq<Draw>, more: seq<Draw>)
    requires |targets| <= |draws|
    ensures NewRows(targets, keys, draws + more) == NewRows(targets, keys, draws)
  {
    if targets != [] {
      NewRowsPrefix(targets[..|targets| - 1], keys, draws, more);
    }
  }

  lemma NewRowsSnoc(targets: seq<Target>, target: Target, keys: set<Key>, draws: seq<Draw>, draw: Draw)
    requires |targets| == |draws|
    ensures NewRows(targets + [target], keys, draws + [draw]) ==
            NewRows(targets, keys, draws) + if Opens(target, keys, draw) then [NewRow(target.0, target.1, draw)] else []
  {
    assert (targets + [target])[..|targets|] == targets;
    NewRowsPrefix(targets, keys, draws, [draw]);
  }

  /** The rows of a pass are those of one agent and those the others get in a pass of their own. */
  lemma {:induction false} RowsSplit(targets: seq<Target>, keys: set<Key>, draws: seq<Draw>, agentId: string)
    requires |targets| <= |draws|
    ensures multiset(NewRows(targets, keys, draws)) ==
            multiset(NewRows(OtherTargets(targets, agentId), keys, OtherDraws(targets, draws, agentId)))
            + multiset(OwnRows(targets, keys, draws, agentId))
  {
    if targets != [] {
      var n := |targets| - 1;
      RowsSplit(targets[..n], keys, draws, agentId);
      NewRowsLast(targets, keys, draws);
      OwnRowsLast(targets, keys, draws, agentId);
      OtherRowsLast(targets, keys, draws, agentId);
    }
  }

  /** What the last target adds to the rows of a pass, to one agent's and to the others'. */
  function LastRow(targets: seq<Target>, keys: set<Key>, draws: seq<Draw>): multiset<Row>
    requires 0 < |targets| <= |draws|
  {
    var n := |targets| - 1;
    if Opens(targets[n], keys, draws[n]) then multiset{NewRow(targets[n].0, targets[n].1, draws[n])} else multiset{}
  }

  lemma NewRowsLast(targets: seq<Target>, keys: set<Key>, draws: seq<Draw>)
    requires 0 < |targets| <= |draws|
    ensures multiset(NewRows(targets, keys, draws)) ==
            multiset(NewRows(targets[..|targets| - 1], keys, draws)) + LastRow(targets, keys, draws)
  {
    var n := |targets| - 1;
    BagSnoc(NewRows(targets[..n], keys, draws), NewRow(targets[n].0, targets[n].1, draws[n]),
            Opens(targets[n], keys, draws[n]));
  }

  lemma OwnRowsLast(targets: seq<Target>, keys: set<Key>, draws: seq<Draw>, agentId: string)
    requires 0 < |targets| <= |draws|
    ensures multiset(OwnRows(targets, keys, draws, agentId)) ==
            multiset(OwnRows(targets[..|targets| - 1], keys, draws, agentId))
            + if targets[|targets| - 1].0 == agentId then LastRow(targets, keys, draws) else multiset{}
  {
    var n := |targets| - 1;
    BagSnoc(OwnRows(targets[..n], keys, draws, agentId), NewRow(targets[n].0, targets[n].1, draws[n]),
            targets[n].0 == agentId && Opens(targets[n], keys, draws[n]));
  }

  lemma OtherRowsLast(targets: seq<Target>, keys: set<Key>, draws: seq<Draw>, agentId: string)
    requires 0 < |targets| <= |draws|
    ensures multiset(NewRows(OtherTargets(targets, agentId), keys, OtherDraws(targets, draws, agentId))) ==
            multiset(NewRows(OtherTargets(targets[..|targets| - 1], agentId), keys,
                             OtherDraws(targets[..|targets| - 1], draws, agentId)))
            + if targets[|targets| - 1].0 == agentId then multiset{} else LastRow(targets, keys, draws)
  {
    var n := |targets| - 1;
    var others, theirs := OtherTargets(targets[..n], agentId), OtherDraws(targets[..n], draws, agentId);
    if targets[n].0 == agentId {
      assert OtherTargets(targets, agentId) == others && OtherDraws(targets, draws, agentId) == theirs;
    } else {
      NewRowsSnoc(others, targets[n], keys, theirs, draws[n]);
      BagSnoc(NewRows(others, keys, theirs), NewRow(targets[n].0, targets[n].1, draws[n]),
              Opens(targets[n], keys, draws[n]));
    }
  }

  lemma {:induction false} OthersConcat(a: seq<Target>, b: seq<Target>, agentId: string)
    ensures OtherTargets(a + b, agentId) == OtherTargets(a, agentId) + OtherTargets(b, agentId)
  {
    if b == [] {
      assert a + b == a;
    } else {
      assert (a + b)[..|a + b| - 1] == a + b[..|b| - 1];
      OthersConcat(a, b[..|b| - 1], agentId);
    }
  }

  lemma {:induction false} OthersOfOne(id: string, sessions: seq<Session>, agentId: string)
    ensures OtherTargets(TargetsOf(id, sessions), agentId) == if id == agentId then [] else TargetsOf(id, sessions)
  {
    if sessions != [] {
      var init := sessions[..|sessions| - 1];
      OthersOfOne(id, init, agentId);
      assert TargetsOf(id, sessions)[..|TargetsOf(id, init)|] == TargetsOf(id, init);
    }
  }

  lemma AgentWithout(a: Agent, servers: map<string, seq<Session>>, failed: string)
    ensures AgentTargets(a, servers - {failed}) == OtherTargets(AgentTargets(a, servers), failed)
  {
    if a.id in servers {
      hide TargetsOf;
      OthersOfOne(a.id, servers[a.id], failed);
    }
  }

  /** Without one agent's listing the targets are those of the others. */
  lemma {:induction false} TargetsWithout(agents: seq<Agent>, servers: map<string, seq<Session>>, failed: string)
    ensures Targets(agents, servers - {failed}) == OtherTargets(Targets(agents, servers), failed)
  {
    if agents != [] {
      hide AgentTargets, OtherTargets;
      var init, a := agents[..|agents| - 1], agents[|agents| - 1];
      TargetsWithout(init, servers, failed);
      OthersConcat(Targets(init, servers), AgentTargets(a, servers), failed);
      AgentWithout(a, servers, failed);
    } else {
      assert OtherTargets([], failed) == [];
    }
  }

  /**
   When an agent's listing fails, the pass makes for the others the very rows it makes when it succeeds: all that
   is missing are the rows of the agent itself.
   */
  lemma FailedListingIsIsolated(table: seq<Row>, agents: seq<Agent>, servers: map<string, seq<Session>>, failed: string,
                                draws: seq<Draw>)
    requires |Targets(agents, servers)| <= |draws|
    ensures var targets, without := Targets(agents, servers), Targets(agents, servers - {failed});
            && |OtherDraws(targets, draws, failed)| == |without|
            && multiset(Pass(table, targets, draws).table) ==
               multiset(Pass(table, without, OtherDraws(targets, draws, failed)).table)
               + multiset(OwnRows(targets, Keys(table), draws, failed))
  {
    var targets := Targets(agents, servers);
    TargetsWithout(agents, servers, failed);
    MirroredAddsRows(table, targets, Keys(table), draws);
    MirroredAddsRows(table, OtherTargets(targets, failed), Keys(table), OtherDraws(targets, draws, failed));
    RowsSplit(targets, Keys(table), draws, failed);
  }
}
