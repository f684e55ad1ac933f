/** The five key-value operations: on the whole map, as the store runs them, and on the one register
    a key amounts to, as the history checker replays them. */
module KvOps {
  import opened Wire

  datatype Op = Put | Get | Delete | Cas | Append

  datatype Call = Call(op: Op, key: Bytes, arg: Bytes, arg2: Bytes)

  datatype Register = Register(present: bool, value: Bytes)

  type Store = map<Bytes, Bytes>

  /** Status bytes 'O', 'N', 'F' and 'E'. */
  const Ok: Bytes := [79]
  const NotFound: Bytes := [78]
  const CasFailed: Bytes := [70]
  const Malformed: Bytes := [69]

  const Unset := Register(false, [])

  function ApplyOp(kv: Store, c: Call): (Store, Bytes) {
    match c.op
    case Put => (kv[c.key := c.arg], Ok)
    case Get => (kv, if c.key in kv then Ok + kv[c.key] else NotFound)
    case Delete => (kv - {c.key}, if c.key in kv then Ok else NotFound)
    case Cas =>
      if (if c.key in kv then kv[c.key] else []) != c.arg then (kv, CasFailed) else (kv[c.key := c.arg2], Ok)
    case Append =>
      var v := (if c.key in kv then kv[c.key] else []) + c.arg;
      (kv[c.key := v], Ok + v)
  }

  function ModelApply(r: Register, c: Call): (Register, Bytes) {
    match c.op
    case Put => (Register(true, c.arg), Ok)
    case Get => (r, if r.present then Ok + r.value else NotFound)
    case Delete => (Unset, if r.present then Ok else NotFound)
    case Cas =>
      if (if r.present then r.value else []) != c.arg then (r, CasFailed) else (Register(true, c.arg2), Ok)
    case Append =>
      var v := (if r.present then r.value else []) + c.arg;
      (Register(true, v), Ok + v)
  }

  function RegisterOf(kv: Store, k: Bytes): Register {
    if k in kv then Register(true, kv[k]) else Unset
  }

  /** The store's operation acts on its own key as the register model does, and on no other key. */
  lemma ApplyOpProjects(kv: Store, c: Call, k: Bytes)
    ensures ApplyOp(kv, c).1 == ModelApply(RegisterOf(kv, c.key), c).1
    ensures RegisterOf(ApplyOp(kv, c).0, k)
            == if k == c.key then ModelApply(RegisterOf(kv, k), c).0 else RegisterOf(kv, k)
  {}

  // ---- what a client may conclude from the replies --------------------------------------------------------

  /** The reply a call gets right after another one. */
  function Then(kv: Store, first: Call, second: Call): Bytes { ApplyOp(ApplyOp(kv, first).0, second).1 }

  function Read(k: Bytes): Call { Call(Get, k, [], []) }

  /** No two outcomes share a status byte, so a reply's first byte tells them apart. */
  lemma OutcomesDiffer(kv: Store, c: Call)
    ensures |{Ok[0], NotFound[0], CasFailed[0], Malformed[0]}| == 4
    ensures var r := ApplyOp(kv, c).1; Ok <= r || r == NotFound || r == CasFailed
  {}

  /** A read returns the value the last write left, whichever operation wrote it; a write that failed left
      the earlier value, and a deleted key reads as absent. */
  lemma ReadAfter(kv: Store, k: Bytes, v: Bytes, w: Bytes)
    ensures Then(kv, Call(Put, k, v, []), Read(k)) == Ok + v
    ensures Then(kv, Call(Delete, k, [], []), Read(k)) == NotFound
    ensures Then(kv, Call(Append, k, v, []), Read(k)) == ApplyOp(kv, Call(Append, k, v, [])).1
    ensures ApplyOp(kv, Read(k)).1 == Ok + w ==> ApplyOp(kv, Call(Append, k, v, [])).1 == Ok + w + v
    ensures ApplyOp(kv, Read(k)).1 == NotFound ==> ApplyOp(kv, Call(Append, k, v, [])).1 == Ok + v
    ensures ApplyOp(kv, Call(Delete, k, [], [])).1 == Ok <==> ApplyOp(kv, Read(k)).1 != NotFound
    ensures ApplyOp(kv, Call(Cas, k, v, w)).1 == Ok ==> Then(kv, Call(Cas, k, v, w), Read(k)) == Ok + w
    ensures ApplyOp(kv, Call(Cas, k, v, w)).1 != Ok ==>
              ApplyOp(kv, Call(Cas, k, v, w)) == (kv, CasFailed)
  {
    assert forall x: Bytes, y: Bytes :: Ok + x == Ok + y ==> (Ok + x)[1..] == x && (Ok + y)[1..] == y;
    assert Ok != NotFound && forall x: Bytes :: Ok + x != NotFound;
  }

  /** Compare-and-set succeeds exactly when a read would have returned the expected value, an absent key
      counting as the empty value. */
  lemma CasExactly(kv: Store, k: Bytes, v: Bytes, w: Bytes)
    ensures ApplyOp(kv, Call(Cas, k, v, w)).1 == Ok <==>
            ApplyOp(kv, Read(k)).1 == Ok + v || (ApplyOp(kv, Read(k)).1 == NotFound && v == [])
  {
    assert Ok != CasFailed;
    assert forall x: Bytes :: (Ok + x)[0] == 79 && (Ok + x)[1..] == x;
  }

  /** A read changes nothing, and no operation is noticed by a reader of another key. */
  lemma OthersUnmoved(kv: Store, c: Call, k: Bytes)
    requires c.key != k || c.op.Get?
    ensures Then(kv, c, Read(k)) == ApplyOp(kv, Read(k)).1
  {}
}
