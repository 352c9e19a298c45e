/**
 * The database behind src/services/fivem.service.ts, seen abstractly: a
 * table of servers keyed by id and a table of history samples, each sample
 * pointing at its server. The batch calls of the sync become `Op` values,
 * run one after the other, each of which the store may reject as a whole.
 */
module ServerStore {
  import opened Seqs

  /** One row of the server table: the `ServerData` record the sync builds. */
  datatype ServerRow = ServerRow(
    upvotePower: int,
    burstPower: int,
    isPrivate: bool,
    scriptHookAllowed: bool,
    playersMax: int,
    playersCurrent: int,
    iconVersion: int,
    id: string,
    locale: string,
    localeCountry: string,
    hostname: string,
    joinId: string,
    projectName: string,
    projectDescription: string,
    mapname: string,
    gametype: string,
    gamename: string,
    enforceGameBuild: string,
    bannerConnecting: string,
    bannerDetail: string,
    server: string)

  /** The sort key of the server lists, largest first. */
  function PlayersCurrent(row: ServerRow): int { row.playersCurrent }

  /** One history sample: how many players a server had at a moment,
      in milliseconds since the epoch. */
  datatype HistoryRow = HistoryRow(serverId: string, clients: int, timestamp: int)

  /** The batch calls of the sync: `server.createMany` with
      `skipDuplicates`, `server.update` of one row, and
      `serverHistory.createMany`. */
  datatype Op =
    | CreateMany(rows: seq<ServerRow>)
    | Update(row: ServerRow)
    | CreateHistory(samples: seq<HistoryRow>)

  datatype StoreState = StoreState(servers: map<string, ServerRow>, history: seq<HistoryRow>)

  /** `createMany({ data: rows, skipDuplicates: true })`: each row whose id
      is not taken yet is inserted; a row with a taken id is skipped. */
  function InsertNew(m: map<string, ServerRow>, rows: seq<ServerRow>): (r: map<string, ServerRow>)
    ensures forall id :: id in r <==> id in m || exists k :: 0 <= k < |rows| && rows[k].id == id
    ensures forall id :: id in m ==> r[id] == m[id]
    decreases |rows|
  {
    if rows == [] then m
    else
      var m' := if rows[0].id in m then m else m[rows[0].id := rows[0]];
      var r := InsertNew(m', rows[1..]);
      assert forall k :: 0 <= k < |rows[1..]| ==> rows[1..][k] == rows[k + 1];
      r
  }

  /** No two rows share an id. */
  predicate DistinctIds(rows: seq<ServerRow>) {
    forall i, j :: 0 <= i < j < |rows| ==> rows[i].id != rows[j].id
  }

  /** Inserting `a` and then `b` is inserting `a + b`. */
  lemma {:induction false} InsertNewAppend(m: map<string, ServerRow>, a: seq<ServerRow>, b: seq<ServerRow>)
    ensures InsertNew(InsertNew(m, a), b) == InsertNew(m, a + b)
    decreases |a|
  {
    if a != [] {
      assert (a + b)[0] == a[0] && (a + b)[1..] == a[1..] + b;
      var m' := if a[0].id in m then m else m[a[0].id := a[0]];
      InsertNewAppend(m', a[1..], b);
    } else {
      assert a + b == b;
    }
  }

  /** Rows with fresh, distinct ids are all stored as they are. */
  lemma {:induction false} InsertNewValues(m: map<string, ServerRow>, rows: seq<ServerRow>)
    requires DistinctIds(rows)
    requires forall k :: 0 <= k < |rows| ==> rows[k].id !in m
    ensures forall k :: 0 <= k < |rows| ==> rows[k].id in InsertNew(m, rows) && InsertNew(m, rows)[rows[k].id] == rows[k]
    decreases |rows|
  {
    if rows != [] {
      var m' := m[rows[0].id := rows[0]];
      var rest := rows[1..];
      assert forall k :: 0 <= k < |rest| ==> rest[k] == rows[k + 1];
      InsertNewValues(m', rest);
    }
  }

  /** The updates `server.update({ where: { id }, data: row })`, in order:
      an update of an id the table lacks fails and changes nothing. */
  function UpdateAll(m: map<string, ServerRow>, rows: seq<ServerRow>): (r: map<string, ServerRow>)
    ensures r.Keys == m.Keys
    decreases |rows|
  {
    if rows == [] then m
    else
      var prev := UpdateAll(m, rows[..|rows| - 1]);
      var row := rows[|rows| - 1];
      if row.id in prev then prev[row.id := row] else prev
  }

  /** Updating rows with known, distinct ids stores each of them and leaves
      every other server as it was. */
  lemma UpdateAllValues(m: map<string, ServerRow>, rows: seq<ServerRow>)
    requires DistinctIds(rows)
    requires forall k :: 0 <= k < |rows| ==> rows[k].id in m
    ensures forall k :: 0 <= k < |rows| ==> UpdateAll(m, rows)[rows[k].id] == rows[k]
    ensures forall id :: id in m && (forall k :: 0 <= k < |rows| ==> rows[k].id != id) ==> UpdateAll(m, rows)[id] == m[id]
  {
    forall k | 0 <= k < |rows| ensures UpdateAll(m, rows)[rows[k].id] == rows[k] {
      UpdateAllValue(m, rows, k);
    }
    forall id | id in m && (forall k :: 0 <= k < |rows| ==> rows[k].id != id) ensures UpdateAll(m, rows)[id] == m[id] {
      UpdateAllOther(m, rows, id);
    }
  }

  /** Row `k` of rows with known, distinct ids is stored. */
  lemma {:induction false} UpdateAllValue(m: map<string, ServerRow>, rows: seq<ServerRow>, k: nat)
    requires DistinctIds(rows)
    requires forall j :: 0 <= j < |rows| ==> rows[j].id in m
    requires k < |rows|
    ensures UpdateAll(m, rows)[rows[k].id] == rows[k]
    decreases |rows|
  {
    var n := |rows| - 1;
    if k < n {
      var init := rows[..n];
      assert forall j :: 0 <= j < |init| ==> init[j] == rows[j];
      UpdateAllValue(m, init, k);
      assert rows[k].id != rows[n].id;
    }
  }

  /** A server that no row names keeps its entry. */
  lemma {:induction false} UpdateAllOther(m: map<string, ServerRow>, rows: seq<ServerRow>, id: string)
    requires id in m && forall k :: 0 <= k < |rows| ==> rows[k].id != id
    ensures UpdateAll(m, rows)[id] == m[id]
    decreases |rows|
  {
    if rows != [] {
      var init := rows[..|rows| - 1];
      assert forall k :: 0 <= k < |init| ==> init[k] == rows[k];
      UpdateAllOther(m, init, id);
    }
  }

  /** One call, fulfilled (`ok`) or rejected. A rejected call changes
      nothing; so does an update of an id that is not in the table, which
      the store rejects. */
  function Step(st: StoreState, op: Op, ok: bool): StoreState {
    if !ok then st
    else match op
      case CreateMany(rows) => st.(servers := InsertNew(st.servers, rows))
      case Update(row) => if row.id in st.servers then st.(servers := st.servers[row.id := row]) else st
      case CreateHistory(samples) => st.(history := st.history + samples)
  }

  /** The calls run in order; call `k` is rejected exactly when `k` is in
      `rejected`. */
  function Run(st: StoreState, ops: seq<Op>, rejected: set<nat>): StoreState
    decreases |ops|
  {
    if ops == [] then st
    else Step(Run(st, ops[..|ops| - 1], rejected), ops[|ops| - 1], |ops| - 1 !in rejected)
  }

  /** No call ever removes a server. */
  lemma {:induction false} RunKeepsServers(st: StoreState, ops: seq<Op>, rejected: set<nat>)
    ensures st.servers.Keys <= Run(st, ops, rejected).servers.Keys
    decreases |ops|
  {
    if ops != [] {
      RunKeepsServers(st, ops[..|ops| - 1], rejected);
    }
  }

  /** Running `a` and then `b`, all fulfilled, is running `a + b`. */
  lemma {:induction false} RunAppend(st: StoreState, a: seq<Op>, b: seq<Op>)
    ensures Run(st, a + b, {}) == Run(Run(st, a, {}), b, {})
    decreases |b|
  {
    if b == [] {
      assert a + b == a;
    } else {
      assert (a + b)[..|a + b| - 1] == a + b[..|b| - 1];
      RunAppend(st, a, b[..|b| - 1]);
    }
  }

  /** The samples the calls add, in order. */
  function Samples(ops: seq<Op>): seq<HistoryRow>
    decreases |ops|
  {
    if ops == [] then []
    else Samples(ops[..|ops| - 1]) + (if ops[|ops| - 1].CreateHistory? then ops[|ops| - 1].samples else [])
  }

  /** One more call adds its samples, if it is a history call. */
  lemma SamplesSnoc(ops: seq<Op>, op: Op)
    ensures Samples(ops + [op]) == Samples(ops) + (if op.CreateHistory? then op.samples else [])
  {
    SnocInit(ops, op);
  }

  lemma {:induction false} SamplesAppend(a: seq<Op>, b: seq<Op>)
    ensures Samples(a + b) == Samples(a) + Samples(b)
    decreases |b|
  {
    if b == [] {
      assert a + b == a;
    } else {
      assert (a + b)[..|a + b| - 1] == a + b[..|b| - 1];
      SamplesAppend(a, b[..|b| - 1]);
    }
  }

  /** All fulfilled, the calls append exactly their samples to the history. */
  lemma {:induction false} RunHistory(st: StoreState, ops: seq<Op>)
    ensures Run(st, ops, {}).history == st.history + Samples(ops)
    decreases |ops|
  {
    if ops != [] {
      RunHistory(st, ops[..|ops| - 1]);
    }
  }

  /** The store the sync reads and writes. */
  class Store {
    var servers: map<string, ServerRow>
    var history: seq<HistoryRow>

    function State(): StoreState
      reads this
    {
      StoreState(servers, history)
    }

    constructor(st: StoreState)
      ensures State() == st
    {
      servers := st.servers;
      history := st.history;
    }

    /** Runs the calls in order, call `k` rejected when `k` is in `rejected`. */
    method Execute(ops: seq<Op>, rejected: set<nat>)
      modifies this
      ensures State() == Run(old(State()), ops, rejected)
    {
      ghost var start := State();
      for k := 0 to |ops|
        invariant State() == Run(start, ops[..k], rejected)
      {
        assert ops[..k + 1][..k] == ops[..k];
        var st := Step(State(), ops[k], k !in rejected);
        servers, history := st.servers, st.history;
      }
      assert ops[..|ops|] == ops;
    }

    /** `serverHistory.deleteMany({ where: { timestamp: { lt: cutoff } } })`. */
    method DeleteHistoryBefore(cutoff: int)
      modifies this
      ensures servers == old(servers)
      ensures history == Filter(old(history), (h: HistoryRow) => h.timestamp >= cutoff)
    {
      history := Filter(history, (h: HistoryRow) => h.timestamp >= cutoff);
    }

    /** `server.findMany({ where: { server_history: { none: { timestamp: { gte: cutoff } } } } })`:
        the servers without a sample at or after `cutoff`. */
    function StaleServers(cutoff: int): (ids: set<string>)
      reads this
      ensures ids == Stale(State(), cutoff)
    {
      set id | id in servers && !HasSampleSince(history, id, cutoff)
    }

    /** `server.deleteMany({ where: { id: { in: ids } } })`; the samples of the
        deleted servers go with them. */
    method DeleteServers(ids: set<string>)
      modifies this
      ensures servers == old(servers) - ids
      ensures history == Filter(old(history), (h: HistoryRow) => h.serverId !in ids)
    {
      servers := servers - ids;
      history := Filter(history, (h: HistoryRow) => h.serverId !in ids);
    }
  }

  /** The server `id` has a sample at or after `cutoff`. */
  predicate HasSampleSince(history: seq<HistoryRow>, id: string, cutoff: int) {
    exists k :: 0 <= k < |history| && history[k].serverId == id && history[k].timestamp >= cutoff
  }

  /** The servers of `st` without a sample at or after `cutoff`. */
  function Stale(st: StoreState, cutoff: int): (ids: set<string>)
    ensures forall id :: id in ids <==> id in st.servers && !HasSampleSince(st.history, id, cutoff)
  {
    set id | id in st.servers && !HasSampleSince(st.history, id, cutoff)
  }
}
