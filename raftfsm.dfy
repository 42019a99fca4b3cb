/** The replicated state machine of internal/server/raft.go: the hooks the
    consensus library calls (`Apply`, `Snapshot`, `Restore`) on a server that
    owns its map, and the cluster membership and bootstrap decision of
    `InitRaft`. Decoding is abstract: a log entry or snapshot arrives already
    decoded, or as `None` when decoding failed. */
module RaftFsm {
  import opened Common
  import Strings

  /** A replicated command: the JSON object `{Op, Key, Value}`. */
  datatype Command = Command(op: string, key: string, value: Bytes)

  /** Why `Apply` returned an error. */
  datatype ApplyError = UnmarshalFailed | UnknownCommand(op: string)

  /** Why `Restore` returned an error. */
  datatype RestoreError = DecodeFailed

  /** A command that changes `key` when applied. */
  predicate Touches(entry: Option<Command>, key: string)
  {
    entry.Some? && entry.value.key == key && entry.value.op in {"set", "delete"}
  }

  /** The store after one log entry and the error `Apply` returns for it: an
      undecodable entry or an unknown operation leaves the store as it is. */
  function ApplyEntry(store: map<string, Bytes>, entry: Option<Command>): (r: (map<string, Bytes>, Option<ApplyError>))
    ensures r.1 == None <==> entry.Some? && entry.value.op in {"set", "delete"}
    ensures r.1 != None ==> r.0 == store
    ensures entry == None ==> r.1 == Some(UnmarshalFailed)
    ensures forall k :: !Touches(entry, k) ==> (k in r.0 <==> k in store) && (k in store ==> r.0[k] == store[k])
    ensures entry.Some? && entry.value.op == "set" ==> entry.value.key in r.0 && r.0[entry.value.key] == entry.value.value
    ensures entry.Some? && entry.value.op == "delete" ==> entry.value.key !in r.0
  {
    match entry
    case None => (store, Some(UnmarshalFailed))
    case Some(cmd) =>
      if cmd.op == "set" then (store[cmd.key := cmd.value], None)
      else if cmd.op == "delete" then (store - {cmd.key}, None)
      else (store, Some(UnknownCommand(cmd.op)))
  }

  /** The store after applying a whole log, entry by entry, in log order. */
  function Replay(store: map<string, Bytes>, log: seq<Option<Command>>): map<string, Bytes>
    decreases |log|
  {
    if log == [] then store else Replay(ApplyEntry(store, log[0]).0, log[1..])
  }

  /** Restoring a snapshot taken after the first `i` entries and replaying the
      rest gives the state of replaying the whole log. */
  lemma {:induction false} ReplayFromSnapshot(store: map<string, Bytes>, log: seq<Option<Command>>, i: nat)
    requires i <= |log|
    ensures Replay(Replay(store, log[..i]), log[i..]) == Replay(store, log)
    decreases i
  {
    if i > 0 {
      var next := ApplyEntry(store, log[0]).0;
      ReplayFromSnapshot(next, log[1..], i - 1);
      assert log[1..][..i - 1] == log[..i][1..];
      assert log[1..][i - 1..] == log[i..];
    }
  }

  /** A key no entry touches keeps its value (or its absence) through a replay. */
  lemma {:induction false} ReplayUntouched(store: map<string, Bytes>, log: seq<Option<Command>>, key: string)
    requires forall j :: 0 <= j < |log| ==> !Touches(log[j], key)
    ensures key in Replay(store, log) <==> key in store
    ensures key in store ==> Replay(store, log)[key] == store[key]
    decreases |log|
  {
    if log != [] {
      ReplayUntouched(ApplyEntry(store, log[0]).0, log[1..], key);
    }
  }

  /** The last entry that touches a key decides it: after a final `set` the key
      holds that value, after a final `delete` it is absent. */
  lemma {:induction false} ReplayLastTouchWins(store: map<string, Bytes>, log: seq<Option<Command>>, j: nat)
    requires j < |log| && log[j].Some?
    requires forall l :: j < l < |log| ==> !Touches(log[l], log[j].value.key)
    ensures log[j].value.op == "set" ==>
      log[j].value.key in Replay(store, log) && Replay(store, log)[log[j].value.key] == log[j].value.value
    ensures log[j].value.op == "delete" ==> log[j].value.key !in Replay(store, log)
    decreases j
  {
    if j == 0 {
      var next := ApplyEntry(store, log[0]).0;
      forall l | 0 <= l < |log[1..]| ensures !Touches(log[1..][l], log[0].value.key) {
        assert log[1..][l] == log[l + 1];
      }
      ReplayUntouched(next, log[1..], log[0].value.key);
    } else {
      ReplayLastTouchWins(ApplyEntry(store, log[0]).0, log[1..], j - 1);
    }
  }

  /** `Voter`, the only suffrage this code gives. */
  datatype Suffrage = Voter

  /** A `raft.Server` entry of the bootstrap configuration. */
  datatype ClusterServer = ClusterServer(id: string, address: string, suffrage: Suffrage)

  /** The server ID of a member address: the text before its first `:`
      (`strings.Split(addr, ":")[0]`), or the whole address without one. */
  function ServerId(address: string): (id: string)
    ensures |id| <= |address| && id == address[..|id|]
    ensures ':' !in id
    ensures |id| < |address| ==> address[|id|] == ':'
  {
    Strings.SplitFirst(address, ':');
    Strings.Split(address, ':')[0]
  }

  /** The `servers` list of `InitRaft`: one voter per configured member, in
      order, keeping each address verbatim. */
  method ClusterServers(members: seq<string>) returns (servers: seq<ClusterServer>)
    ensures |servers| == |members|
    ensures forall i :: 0 <= i < |members| ==> servers[i] == ClusterServer(ServerId(members[i]), members[i], Voter)
  {
    servers := [];
    for n := 0 to |members|
      invariant |servers| == n
      invariant forall i :: 0 <= i < n ==> servers[i] == ClusterServer(ServerId(members[i]), members[i], Voter)
    {
      servers := servers + [ClusterServer(ServerId(members[n]), members[n], Voter)];
    }
  }

  /** What `raft.HasExistingState` reported. */
  datatype StateProbe = Probed(hasState: bool) | ProbeFailed

  /** The error `BootstrapCluster` reports, when it reports one. */
  datatype BootstrapError = ErrCantBootstrap | BootstrapRejected

  /** The end of `InitRaft`. */
  datatype InitOutcome = Started | StateCheckFailed | BootstrapFailed

  /** Whether `InitRaft` calls `BootstrapCluster`: only for a node asked to
      initialise the cluster that has no earlier consensus state. */
  predicate AttemptsBootstrap(initCluster: bool, probe: StateProbe)
  {
    initCluster && probe == Probed(false)
  }

  /** The outcome of `InitRaft` after the consensus node is created, given the
      state probe and what bootstrapping would report. `ErrCantBootstrap` is
      tolerated; any other bootstrap error fails. */
  function CompleteInit(initCluster: bool, probe: StateProbe, bootstrap: Option<BootstrapError>): (r: InitOutcome)
    ensures r == StateCheckFailed <==> initCluster && probe == ProbeFailed
    ensures r == BootstrapFailed <==> AttemptsBootstrap(initCluster, probe) && bootstrap == Some(BootstrapRejected)
    ensures !initCluster ==> r == Started
    ensures bootstrap != Some(BootstrapRejected) && probe != ProbeFailed ==> r == Started
  {
    if !initCluster then Started
    else match probe
      case ProbeFailed => StateCheckFailed
      case Probed(hasState) =>
        if hasState then Started
        else if bootstrap == Some(BootstrapRejected) then BootstrapFailed
        else Started
  }

  /** The server as the consensus library sees it: a map it replaces or
      changes one command at a time. */
  class Server {
    var store: map<string, Bytes>

    constructor ()
      ensures store == map[]
    {
      store := map[];
    }

    /** `Apply`: an undecodable entry is an error before the store is touched;
        `set` writes, `delete` removes without a not-found error, and an
        unknown operation is an error that changes nothing. */
    method Apply(entry: Option<Command>) returns (err: Option<ApplyError>)
      modifies this
      ensures (store, err) == ApplyEntry(old(store), entry)
      ensures entry == None ==> err == Some(UnmarshalFailed) && store == old(store)
      ensures entry.Some? && entry.value.op == "set" ==>
        err == None && store == old(store)[entry.value.key := entry.value.value]
      ensures entry.Some? && entry.value.op == "delete" ==>
        err == None && store == old(store) - {entry.value.key}
      ensures entry.Some? && entry.value.op !in {"set", "delete"} ==>
        err == Some(UnknownCommand(entry.value.op)) && store == old(store)
    {
      if entry.None? {
        return Some(UnmarshalFailed);
      }
      var cmd := entry.value;
      if cmd.op == "set" {
        store := store[cmd.key := cmd.value];
      } else if cmd.op == "delete" {
        store := store - {cmd.key};
      } else {
        return Some(UnknownCommand(cmd.op));
      }
      err := None;
    }

    /** `Snapshot`: an entry-by-entry copy equal to the store. */
    method Snapshot() returns (snapshot: map<string, Bytes>)
      ensures snapshot == store
    {
      snapshot := CopyEntries(store);
    }

    /** `Restore`: a decoded snapshot replaces the store wholesale; a decoding
        failure is returned and the store is left as it was. */
    method Restore(decoded: Option<map<string, Bytes>>) returns (err: Option<RestoreError>)
      modifies this
      ensures decoded.Some? ==> err == None && store == decoded.value
      ensures decoded.None? ==> err == Some(DecodeFailed) && store == old(store)
    {
      if decoded.None? {
        return Some(DecodeFailed);
      }
      store := decoded.value;
      err := None;
    }
  }

  /** A follower that restores a leader's snapshot and applies the same
      remaining entries ends in the leader's state. */
  method SnapshotCatchUp(leader: Server, follower: Server, rest: seq<Option<Command>>)
    requires leader != follower
    modifies leader, follower
    ensures leader.store == Replay(old(leader.store), rest)
    ensures follower.store == leader.store
  {
    var snapshot := leader.Snapshot();
    var _ := follower.Restore(Some(snapshot));
    for n := 0 to |rest|
      invariant leader.store == follower.store
      invariant leader.store == Replay(old(leader.store), rest[..n])
    {
      var _ := leader.Apply(rest[n]);
      var _ := follower.Apply(rest[n]);
      ReplayFromSnapshot(old(leader.store), rest[..n + 1], n);
      assert rest[..n + 1][..n] == rest[..n];
      assert rest[..n + 1][n..] == [rest[n]];
    }
    assert rest[..|rest|] == rest;
  }
}
