/** Data of one Raft node: log entries, RPCs, node state and the observable effects of a handler. */
module RaftTypes {
  import opened Common

  type NodeId = nat
  type Term = nat
  type Command = seq<Byte>

  datatype Entry = Entry(term: Term, command: Command)

  /** Entry i of the Raft log (1-based) is element i - 1 of the sequence. */
  type Log = seq<Entry>

  datatype Role = Follower | Candidate | Leader

  datatype Msg =
    | RequestVote(term: Term, candidateId: NodeId, lastLogIndex: nat, lastLogTerm: Term)
    | RequestVoteReply(term: Term, voteGranted: bool)
    | AppendEntries(term: Term, leaderId: NodeId, prevLogIndex: nat, prevLogTerm: Term,
                    leaderCommit: nat, entries: seq<Entry>)
    | AppendEntriesReply(term: Term, success: bool, conflictIndex: nat, conflictTerm: Term)

  /** Everything a RaftCore holds: the durable term, vote and log, then the volatile rest.
      `handed` lists the entries given to the state machine by this incarnation. */
  datatype Node = Node(
    term: Term, vote: Option<NodeId>, log: Log,
    role: Role, leaderId: Option<NodeId>, votes: set<NodeId>,
    nextIndex: map<NodeId, nat>, matchIndex: map<NodeId, nat>,
    commitIndex: nat, lastApplied: nat, handed: seq<Entry>)

  /** What a handler does to the outside world, in program order. */
  datatype Effect =
    | SaveState(term: Term, vote: Option<NodeId>)
    | TruncateLog(from: nat)
    | AppendLog(entries: seq<Entry>)
    | Send(to: NodeId, msg: Msg)

  datatype Outcome = Outcome(node: Node, effects: seq<Effect>)

  /** One node's static configuration; `peers` excludes the node itself. */
  datatype Config = Config(self: NodeId, peers: seq<NodeId>) {
    function Majority(): nat { (|peers| + 1) / 2 + 1 }
  }

  function TermAt(log: Log, i: nat): Term {
    if 1 <= i <= |log| then log[i - 1].term else 0
  }

  function LastTerm(log: Log): Term { TermAt(log, |log|) }

  /** All entries from index i on; empty when i is past the end. */
  function EntriesFrom(log: Log, i: nat): seq<Entry> {
    if i <= 1 then log else if i > |log| then [] else log[i - 1..]
  }

  /** The log after deleting index i and everything above it. */
  function TruncatedFrom(log: Log, i: nat): Log {
    if i <= 1 then [] else if i > |log| then log else log[..i - 1]
  }

  /** std::map lookup through operator[]: an absent key reads as 0. */
  function Get(m: map<NodeId, nat>, k: NodeId): nat { if k in m then m[k] else 0 }

  /** A boot: the durable part is read back, the volatile part is at its initial values. */
  function Boot(term: Term, vote: Option<NodeId>, log: Log): Node {
    Node(term, vote, log, Follower, None, {}, map[], map[], 0, 0, [])
  }

  function Restarted(n: Node): Node { Boot(n.term, n.vote, n.log) }
}
