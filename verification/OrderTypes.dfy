/** Orders, commands and results of the matching engine. Prices and quantities are whole numbers. */
module OrderTypes {
  import opened Common
  import opened Wire
  import Sessions

  datatype Side = Bid | Ask

  datatype Fill = Fill(maker: nat, price: nat, qty: nat)

  /** The outcome of a command: 'O' with its payload, 'N', or 'E'. */
  datatype Reply = Done(orderId: nat, resting: nat, fills: seq<Fill>) | Rejected | Malformed

  type Session = Sessions.Session<Reply>

  /** The leading 17 bytes of a command: session identity and operation. */
  datatype Header = Header(clientId: nat, seqNo: nat, op: nat)

  datatype Body =
    | New(side: Side, price: nat, qty: nat)
    | Cancel(id: nat)
    | Amend(id: nat, price: nat, qty: nat)

  function DecodeHeader(cmd: Bytes): Option<Header> {
    if |cmd| < 17 || cmd[16] < 1 || cmd[16] > 3 then None
    else Some(Header(Value(cmd[..8]), Value(cmd[8..16]), cmd[16]))
  }

  /** The rest of a command; truncation, trailing bytes and zero prices or quantities are malformed. */
  function DecodeBody(cmd: Bytes): (b: Option<Body>)
    requires DecodeHeader(cmd).Some?
    ensures b.Some? && b.value.New? ==> b.value.qty > 0
    ensures b.Some? && b.value.Amend? ==> b.value.qty > 0
  {
    if cmd[16] == 1 then
      if |cmd| != 34 || cmd[17] > 1 || Value(cmd[18..26]) == 0 || Value(cmd[26..34]) == 0 then None
      else Some(New(if cmd[17] == 0 then Bid else Ask, Value(cmd[18..26]), Value(cmd[26..34])))
    else if cmd[16] == 2 then
      if |cmd| != 25 then None else Some(Cancel(Value(cmd[17..25])))
    else
      if |cmd| != 41 || Value(cmd[25..33]) == 0 || Value(cmd[33..41]) == 0 then None
      else Some(Amend(Value(cmd[17..25]), Value(cmd[25..33]), Value(cmd[33..41])))
  }

  /** Would a resting order at `price` trade with a taker limited to `limit`? */
  predicate Crosses(taker: Side, price: nat, limit: nat) {
    if taker.Bid? then price <= limit else price >= limit
  }

  /** Does a taker prefer price p to price q? */
  predicate Better(taker: Side, p: nat, q: nat) {
    if taker.Bid? then p < q else p > q
  }

  function Other(s: Side): Side { if s.Bid? then Ask else Bid }

  /** A cached reply, when the command is a duplicate or older than one of its client. */
  function Cached(sessions: map<nat, Session>, h: Header): Option<Reply> {
    if h.clientId != 0 && h.clientId in sessions && h.seqNo <= sessions[h.clientId].lastSeq
    then Some(sessions[h.clientId].lastReply) else None
  }

  function Recorded(sessions: map<nat, Session>, h: Header, r: Reply): map<nat, Session> {
    if h.clientId != 0 then sessions[h.clientId := Sessions.Session(h.seqNo, r)] else sessions
  }
}
