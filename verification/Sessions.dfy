/** Exactly-once execution by apply-time deduplication, for any state machine behind a session table. */
module Sessions {
  import opened Common
  import opened Wire

  datatype Ident = Ident(client: nat, seqNo: nat)

  /** A state machine as the session layer sees it: `ident` reads a command's identity, `sound` is
      checked once the command is known not to be a duplicate, `step` executes it. */
  datatype Machine<!S, A> = Machine(
    init: S, ident: Bytes -> Option<Ident>, sound: Bytes -> bool, step: (S, Bytes) -> (S, A), malformed: A)

  datatype Session<A> = Session(lastSeq: nat, lastReply: A)

  datatype State<S, A> = State(core: S, sessions: map<nat, Session<A>>)

  function Initial<S, A>(m: Machine<S, A>): State<S, A> { State(m.init, map[]) }

  /** Same or older sequence number than the client's latest; client 0 has no session. */
  predicate Duplicate<S, A>(st: State<S, A>, id: Ident) {
    id.client != 0 && id.client in st.sessions && id.seqNo <= st.sessions[id.client].lastSeq
  }

  /** Will this command be executed? */
  predicate Fresh<S, A>(m: Machine<S, A>, st: State<S, A>, cmd: Bytes) {
    var id := m.ident(cmd);
    id.Some? && !Duplicate(st, id.value) && m.sound(cmd)
  }

  function Apply<S, A>(m: Machine<S, A>, st: State<S, A>, cmd: Bytes): (State<S, A>, A) {
    var id := m.ident(cmd);
    if id.None? then (st, m.malformed)
    else if Duplicate(st, id.value) then (st, st.sessions[id.value.client].lastReply)
    else if !m.sound(cmd) then (st, m.malformed)
    else
      var (core, r) := m.step(st.core, cmd);
      var sessions := if id.value.client != 0 then st.sessions[id.value.client := Session(id.value.seqNo, r)]
                      else st.sessions;
      (State(core, sessions), r)
  }

  /** The state after the first n commands. */
  function After<S, A>(m: Machine<S, A>, cmds: seq<Bytes>, n: nat): State<S, A>
    requires n <= |cmds|
  {
    if n == 0 then Initial(m) else Apply(m, After(m, cmds, n - 1), cmds[n - 1]).0
  }

  function ReplyAt<S, A>(m: Machine<S, A>, cmds: seq<Bytes>, k: nat): A
    requires k < |cmds|
  {
    Apply(m, After(m, cmds, k), cmds[k]).1
  }

  predicate FreshAt<S, A>(m: Machine<S, A>, cmds: seq<Bytes>, k: nat)
    requires k < |cmds|
  {
    Fresh(m, After(m, cmds, k), cmds[k])
  }

  /** Positions, among the first n, of the commands that were executed. */
  function Executed<S, A>(m: Machine<S, A>, cmds: seq<Bytes>, n: nat): (ks: seq<nat>)
    requires n <= |cmds|
    ensures forall x :: 0 <= x < |ks| ==> ks[x] < n
    ensures forall x, y :: 0 <= x < y < |ks| ==> ks[x] < ks[y]
  {
    if n == 0 then []
    else
      var before := Executed(m, cmds, n - 1);
      if FreshAt(m, cmds, n - 1) then before + [n - 1] else before
  }

  lemma {:induction false} ExecutedAreFresh<S, A>(m: Machine<S, A>, cmds: seq<Bytes>, n: nat)
    requires n <= |cmds|
    ensures forall x {:trigger Executed(m, cmds, n)[x]} :: 0 <= x < |Executed(m, cmds, n)| ==>
              FreshAt(m, cmds, Executed(m, cmds, n)[x])
    ensures forall k :: 0 <= k < n && FreshAt(m, cmds, k) ==> k in Executed(m, cmds, n)
    decreases n
  {
    if n > 0 { ExecutedAreFresh(m, cmds, n - 1); }
  }

  /** The bare machine run over some positions of the stream, without any session table. */
  function Bare<S, A>(m: Machine<S, A>, cmds: seq<Bytes>, ks: seq<nat>): S
    requires forall x :: 0 <= x < |ks| ==> ks[x] < |cmds|
  {
    if ks == [] then m.init
    else m.step(Bare(m, cmds, ks[..|ks| - 1]), cmds[ks[|ks| - 1]]).0
  }

  // ---- the session table records the latest execution ----------------------------------------------

  /** Client c's entry names its latest executed command k and that command's reply. */
  ghost predicate Latest<S, A>(m: Machine<S, A>, cmds: seq<Bytes>, n: nat, c: nat, k: nat)
    requires n <= |cmds|
  {
    && k < n && FreshAt(m, cmds, k) && m.ident(cmds[k]).value.client == c
    && c in After(m, cmds, n).sessions
    && After(m, cmds, n).sessions[c] == Session(m.ident(cmds[k]).value.seqNo, ReplyAt(m, cmds, k))
  }

  lemma {:induction false} TableNamesLatest<S, A>(m: Machine<S, A>, cmds: seq<Bytes>, n: nat, c: nat) returns (k: nat)
    requires n <= |cmds| && c != 0 && c in After(m, cmds, n).sessions
    ensures Latest(m, cmds, n, c, k)
    decreases n
  {
    if FreshAt(m, cmds, n - 1) && m.ident(cmds[n - 1]).value.client == c {
      k := n - 1;
    } else {
      k := TableNamesLatest(m, cmds, n - 1, c);
    }
  }

  /** Once a command has been executed its client's table entry is at least as recent. */
  lemma {:induction false} TableAtLeast<S, A>(m: Machine<S, A>, cmds: seq<Bytes>, k: nat, n: nat)
    requires k < n <= |cmds| && FreshAt(m, cmds, k) && m.ident(cmds[k]).value.client != 0
    ensures var id := m.ident(cmds[k]).value;
            id.client in After(m, cmds, n).sessions && id.seqNo <= After(m, cmds, n).sessions[id.client].lastSeq
    decreases n
  {
    if n > k + 1 { TableAtLeast(m, cmds, k, n - 1); }
  }

  // ---- exactly once -------------------------------------------------------------------------------------

  /** However often commands are repeated, the machine's state is that of executing the fresh ones once
      each, in order. */
  lemma {:induction false} StateIsBareRun<S, A>(m: Machine<S, A>, cmds: seq<Bytes>, n: nat)
    requires n <= |cmds|
    ensures After(m, cmds, n).core == Bare(m, cmds, Executed(m, cmds, n))
    decreases n
  {
    if n > 0 {
      StateIsBareRun(m, cmds, n - 1);
      if FreshAt(m, cmds, n - 1) { FreshMoves(m, cmds, n); } else { StaleStays(m, cmds, n); }
    }
  }

  lemma {:induction false} FreshMoves<S, A>(m: Machine<S, A>, cmds: seq<Bytes>, n: nat)
    requires 0 < n <= |cmds| && FreshAt(m, cmds, n - 1)
    requires After(m, cmds, n - 1).core == Bare(m, cmds, Executed(m, cmds, n - 1))
    ensures After(m, cmds, n).core == Bare(m, cmds, Executed(m, cmds, n))
  {
    BareSnoc(m, cmds, Executed(m, cmds, n - 1), n - 1);
  }

  lemma {:induction false} StaleStays<S, A>(m: Machine<S, A>, cmds: seq<Bytes>, n: nat)
    requires 0 < n <= |cmds| && !FreshAt(m, cmds, n - 1)
    ensures After(m, cmds, n).core == After(m, cmds, n - 1).core && Executed(m, cmds, n) == Executed(m, cmds, n - 1)
  {}

  lemma BareSnoc<S, A>(m: Machine<S, A>, cmds: seq<Bytes>, ks: seq<nat>, k: nat)
    requires k < |cmds| && forall x :: 0 <= x < |ks| ==> ks[x] < |cmds|
    ensures Bare(m, cmds, ks + [k]) == m.step(Bare(m, cmds, ks), cmds[k]).0
  {
    assert (ks + [k])[..|ks|] == ks;
  }

  /** A client's executed sequence numbers strictly increase, so no identity is executed twice. */
  lemma ExecutedIncreases<S, A>(m: Machine<S, A>, cmds: seq<Bytes>, j: nat, k: nat)
    requires j < k < |cmds| && FreshAt(m, cmds, j) && FreshAt(m, cmds, k)
    requires m.ident(cmds[j]).value.client == m.ident(cmds[k]).value.client != 0
    ensures m.ident(cmds[j]).value.seqNo < m.ident(cmds[k]).value.seqNo
  {
    TableAtLeast(m, cmds, j, k);
  }

  /** Every earlier sound command of the same client carries a lower sequence number. */
  ghost predicate Newest<S, A>(m: Machine<S, A>, cmds: seq<Bytes>, k: nat)
    requires k < |cmds|
  {
    forall j :: 0 <= j < k && SameClient(m, cmds[j], cmds[k]) ==>
                  m.ident(cmds[j]).value.seqNo < m.ident(cmds[k]).value.seqNo
  }

  predicate SameClient<S, A>(m: Machine<S, A>, a: Bytes, b: Bytes) {
    && m.ident(a).Some? && m.sound(a) && m.ident(b).Some? && m.sound(b)
    && m.ident(a).value.client == m.ident(b).value.client
  }

  /** Which commands of a stream are executed, told from the stream alone: the sound ones without a session,
      and those that are newer than everything their client sent before. */
  lemma FreshExactly<S, A>(m: Machine<S, A>, cmds: seq<Bytes>, k: nat)
    requires k < |cmds| && m.ident(cmds[k]).Some? && m.sound(cmds[k])
    ensures FreshAt(m, cmds, k) <==> m.ident(cmds[k]).value.client == 0 || Newest(m, cmds, k)
  {
    var id := m.ident(cmds[k]).value;
    if id.client != 0 {
      if FreshAt(m, cmds, k) {
        forall j | 0 <= j < k && SameClient(m, cmds[j], cmds[k]) ensures m.ident(cmds[j]).value.seqNo < id.seqNo {
          TableKnows(m, cmds, j, k);
        }
      } else {
        var j := TableNamesLatest(m, cmds, k, id.client);
        assert SameClient(m, cmds[j], cmds[k]);
      }
    }
  }

  /** After a sound command, executed or not, its client's table entry is at least as recent. */
  lemma {:induction false} TableKnows<S, A>(m: Machine<S, A>, cmds: seq<Bytes>, j: nat, n: nat)
    requires j < n <= |cmds| && m.ident(cmds[j]).Some? && m.sound(cmds[j]) && m.ident(cmds[j]).value.client != 0
    ensures var id := m.ident(cmds[j]).value;
            id.client in After(m, cmds, n).sessions && id.seqNo <= After(m, cmds, n).sessions[id.client].lastSeq
    decreases n
  {
    if n > j + 1 { TableKnows(m, cmds, j, n - 1); }
  }

  /** A repeat of a client's latest command gets the original reply and changes nothing. */
  lemma RetryGetsReply<S, A>(m: Machine<S, A>, cmds: seq<Bytes>, k: nat)
    requires k < |cmds| && m.ident(cmds[k]).Some? && !FreshAt(m, cmds, k) && m.sound(cmds[k])
    ensures After(m, cmds, k + 1) == After(m, cmds, k)
    ensures var id := m.ident(cmds[k]).value;
            && id.client != 0
            && exists j: nat :: (Latest(m, cmds, k, id.client, j)
                 && id.seqNo <= m.ident(cmds[j]).value.seqNo && ReplyAt(m, cmds, k) == ReplyAt(m, cmds, j))
  {
    var j := TableNamesLatest(m, cmds, k, m.ident(cmds[k]).value.client);
  }

  /** The reply to a sound command is the one some command of the stream got when it was executed. */
  lemma ReplyIsExecuted<S, A>(m: Machine<S, A>, cmds: seq<Bytes>, k: nat) returns (j: nat)
    requires k < |cmds| && m.ident(cmds[k]).Some? && m.sound(cmds[k])
    ensures j <= k && FreshAt(m, cmds, j)
    ensures ReplyAt(m, cmds, k) == m.step(After(m, cmds, j).core, cmds[j]).1
  {
    if FreshAt(m, cmds, k) {
      j := k;
    } else {
      j := TableNamesLatest(m, cmds, k, m.ident(cmds[k]).value.client);
    }
  }

  /** A malformed command is answered as such, unless its readable identity repeats an old one, and in
      either case leaves no trace. */
  lemma UnsoundLeavesNoTrace<S, A>(m: Machine<S, A>, cmds: seq<Bytes>, k: nat)
    requires k < |cmds| && (m.ident(cmds[k]).None? || !m.sound(cmds[k]))
    ensures After(m, cmds, k + 1) == After(m, cmds, k)
    ensures m.ident(cmds[k]).None? || !Duplicate(After(m, cmds, k), m.ident(cmds[k]).value) ==>
              ReplyAt(m, cmds, k) == m.malformed
  {}

  /** Replicas that have applied one stream further than another agree on the common part. */
  lemma {:induction false} PrefixAgrees<S, A>(m: Machine<S, A>, a: seq<Bytes>, b: seq<Bytes>, n: nat)
    requires n <= |a| && n <= |b| && a[..n] == b[..n]
    ensures After(m, a, n) == After(m, b, n)
    decreases n
  {
    if n > 0 {
      assert a[..n - 1] == a[..n][..n - 1] && b[..n - 1] == b[..n][..n - 1];
      assert a[n - 1] == a[..n][n - 1] && b[n - 1] == b[..n][n - 1];
      PrefixAgrees(m, a, b, n - 1);
    }
  }
}
