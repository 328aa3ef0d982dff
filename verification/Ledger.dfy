/**
 The token ledger of a batch transfer: what one batch carries, the dry run that
 validates it, and the update it makes to the balances when it is accepted.

 The database tables are maps. A write transaction is a value that is built up
 and kept only when every phase succeeds.
 */
module Ledger {
  import opened Outcomes

  type SubnetId = nat
  type Address = nat

  const U256_MAX: nat := 0xFFFFFFFF_FFFFFFFF_FFFFFFFF_FFFFFFFF_FFFFFFFF_FFFFFFFF_FFFFFFFF_FFFFFFFF
  const I256_HALF: int := 0x80000000_00000000_00000000_00000000_00000000_00000000_00000000_00000000

  type U256 = n: nat | n <= U256_MAX
  type I256 = d: int | -I256_HALF <= d < I256_HALF

  /** A token is named by the subnet it was created on and its address there. */
  datatype Token = Token(home: SubnetId, address: Address)

  /** IPC:ETR, IPC:ETS and IPC:ETX records, and native transfers. */
  datatype Registration = Registration(address: Address, name: string, symbol: string, supply: U256)
  datatype Adjustment = Adjustment(address: Address, delta: I256)
  datatype ErcTransfer = ErcTransfer(token: Token, amount: U256, destination: SubnetId, recipient: Address)
  datatype NativeTransfer = NativeTransfer(destination: SubnetId, amount: nat, recipient: Address)

  datatype Batch = Batch(
    source: SubnetId,
    native: seq<NativeTransfer>,
    registrations: seq<Registration>,
    adjustments: seq<Adjustment>,
    transfers: seq<ErcTransfer>)

  datatype BatchError =
    | UnknownSource
    | NoCheckpoint
    | DuplicateRegistration
    | AlreadyRegistered
    | BurnExceedsBalance
    | ZeroAmount
    | InsufficientBalance
    | BurnUnderflow
    | TransferUnderflow

  // ---------------------------------------------------------------------
  // Balances

  type Balances = map<(Token, SubnetId), U256>

  /** A missing row reads as zero. */
  function Balance(bal: Balances, t: Token, holder: SubnetId): U256 {
    if (t, holder) in bal then bal[(t, holder)] else 0
  }

  function SaturatingAdd(a: U256, b: U256): U256 {
    if a + b <= U256_MAX then a + b else U256_MAX
  }

  /** The absolute value of an I256, which always fits a U256. */
  function Magnitude(d: I256): U256 {
    if d < 0 then 0 - (d as int) else d
  }

  // ---------------------------------------------------------------------
  // The dry run: `validate_erc_batch_data` keeps the source subnet's running
  // balances in a scratch map and never writes the database.

  type Running = map<Token, U256>

  /** The balance the dry run works with: its own entry, or the stored one. */
  function View(run: Running, bal: Balances, src: SubnetId, t: Token): U256 {
    if t in run then run[t] else Balance(bal, t, src)
  }

  function DryRegistrations(src: SubnetId, regs: seq<Registration>, bal: Balances, run: Running): Result<Running, BatchError> {
    if regs == [] then Ok(run)
    else
      var t := Token(src, regs[0].address);
      if t in run then Err(DuplicateRegistration)
      else if Balance(bal, t, src) > 0 then Err(AlreadyRegistered)
      else DryRegistrations(src, regs[1..], bal, run[t := regs[0].supply])
  }

  function DryMints(src: SubnetId, adjs: seq<Adjustment>, bal: Balances, run: Running): Running {
    if adjs == [] then run
    else if adjs[0].delta <= 0 then DryMints(src, adjs[1..], bal, run)
    else
      var t := Token(src, adjs[0].address);
      DryMints(src, adjs[1..], bal, run[t := SaturatingAdd(View(run, bal, src, t), Magnitude(adjs[0].delta))])
  }

  function DryBurns(src: SubnetId, adjs: seq<Adjustment>, bal: Balances, run: Running): Result<Running, BatchError> {
    if adjs == [] then Ok(run)
    else if adjs[0].delta >= 0 then DryBurns(src, adjs[1..], bal, run)
    else
      var t := Token(src, adjs[0].address);
      var have := View(run, bal, src, t);
      var burn := Magnitude(adjs[0].delta);
      if have < burn then Err(BurnExceedsBalance)
      else DryBurns(src, adjs[1..], bal, run[t := have - burn])
  }

  function DryTransfers(src: SubnetId, ts: seq<ErcTransfer>, bal: Balances, run: Running): Result<Running, BatchError> {
    if ts == [] then Ok(run)
    else if ts[0].amount == 0 then Err(ZeroAmount)
    else
      var have := View(run, bal, src, ts[0].token);
      if have < ts[0].amount then Err(InsufficientBalance)
      else DryTransfers(src, ts[1..], bal, run[ts[0].token := have - ts[0].amount])
  }

  /** Registrations, then mints, then burns: what the transfers start from. */
  function DrySupply(b: Batch, bal: Balances): Result<Running, BatchError> {
    var r := DryRegistrations(b.source, b.registrations, bal, map[]);
    if r.Err? then r
    else DryBurns(b.source, b.adjustments, bal, DryMints(b.source, b.adjustments, bal, r.value))
  }

  function DryRun(b: Batch, bal: Balances): Result<Running, BatchError> {
    var r := DrySupply(b, bal);
    if r.Err? then r else DryTransfers(b.source, b.transfers, bal, r.value)
  }

  // ---------------------------------------------------------------------
  // The update: `save_to_db` reads and writes the stored balances directly.

  function ApplyRegistrations(src: SubnetId, regs: seq<Registration>, bal: Balances): Balances {
    if regs == [] then bal
    else ApplyRegistrations(src, regs[1..], bal[(Token(src, regs[0].address), src) := regs[0].supply])
  }

  function ApplyMints(src: SubnetId, adjs: seq<Adjustment>, bal: Balances): Balances {
    if adjs == [] then bal
    else if adjs[0].delta < 0 then ApplyMints(src, adjs[1..], bal)
    else
      var t := Token(src, adjs[0].address);
      ApplyMints(src, adjs[1..], bal[(t, src) := SaturatingAdd(Balance(bal, t, src), Magnitude(adjs[0].delta))])
  }

  function ApplyBurns(src: SubnetId, adjs: seq<Adjustment>, bal: Balances): Result<Balances, BatchError> {
    if adjs == [] then Ok(bal)
    else if adjs[0].delta >= 0 then ApplyBurns(src, adjs[1..], bal)
    else
      var t := Token(src, adjs[0].address);
      var have := Balance(bal, t, src);
      var burn := Magnitude(adjs[0].delta);
      if have < burn then Err(BurnUnderflow)
      else ApplyBurns(src, adjs[1..], bal[(t, src) := have - burn])
  }

  /** Debit the source, then credit the destination, clamping at the maximum. */
  function MoveTokens(src: SubnetId, e: ErcTransfer, bal: Balances): Balances
    requires e.amount <= Balance(bal, e.token, src)
  {
    var debited := bal[(e.token, src) := Balance(bal, e.token, src) - e.amount];
    debited[(e.token, e.destination) := SaturatingAdd(Balance(debited, e.token, e.destination), e.amount)]
  }

  function ApplyTransfers(src: SubnetId, ts: seq<ErcTransfer>, bal: Balances): Result<Balances, BatchError> {
    if ts == [] then Ok(bal)
    else if ts[0].amount == 0 then ApplyTransfers(src, ts[1..], bal)
    else if Balance(bal, ts[0].token, src) < ts[0].amount then Err(TransferUnderflow)
    else ApplyTransfers(src, ts[1..], MoveTokens(src, ts[0], bal))
  }

  function ApplySupply(b: Batch, bal: Balances): Result<Balances, BatchError> {
    var registered := ApplyRegistrations(b.source, b.registrations, bal);
    ApplyBurns(b.source, b.adjustments, ApplyMints(b.source, b.adjustments, registered))
  }

  function ApplyBalances(b: Batch, bal: Balances): Result<Balances, BatchError> {
    var r := ApplySupply(b, bal);
    if r.Err? then r else ApplyTransfers(b.source, b.transfers, r.value)
  }

  // ---------------------------------------------------------------------
  // Rootnet messages. A subnet's messages are rows keyed by nonce, and the
  // next nonce is the number of rows already there.

  datatype Payload =
    | Fund(amount: nat, recipient: Address)
    | ErcRegistration(home: SubnetId, registration: Registration)
    | ErcTransferred(transfer: ErcTransfer)

  /** Where on Bitcoin a message was found. */
  datatype Origin = Origin(blockHeight: nat, blockHash: nat, txid: nat)

  datatype Message = Message(payload: Payload, nonce: nat, origin: Origin)

  type Inbox = map<nat, Message>
  type Inboxes = map<SubnetId, Inbox>

  datatype Post = Post(destination: SubnetId, payload: Payload)

  function InboxOf(boxes: Inboxes, d: SubnetId): Inbox {
    if d in boxes then boxes[d] else map[]
  }

  function NextNonce(boxes: Inboxes, d: SubnetId): nat {
    |InboxOf(boxes, d)|
  }

  function Deliver(boxes: Inboxes, p: Post, origin: Origin): Inboxes {
    var n := NextNonce(boxes, p.destination);
    boxes[p.destination := InboxOf(boxes, p.destination)[n := Message(p.payload, n, origin)]]
  }

  function DeliverAll(boxes: Inboxes, ps: seq<Post>, origin: Origin): Inboxes
    decreases |ps|
  {
    if ps == [] then boxes else DeliverAll(Deliver(boxes, ps[0], origin), ps[1..], origin)
  }

  function NativePosts(ts: seq<NativeTransfer>): seq<Post> {
    if ts == [] then []
    else [Post(ts[0].destination, Fund(ts[0].amount, ts[0].recipient))] + NativePosts(ts[1..])
  }

  /** One registration goes to every known subnet but its home. */
  function FanOut(src: SubnetId, reg: Registration, subnets: seq<SubnetId>): seq<Post> {
    if subnets == [] then []
    else if subnets[0] == src then FanOut(src, reg, subnets[1..])
    else [Post(subnets[0], ErcRegistration(src, reg))] + FanOut(src, reg, subnets[1..])
  }

  function RegistrationPosts(src: SubnetId, regs: seq<Registration>, subnets: seq<SubnetId>): seq<Post> {
    if regs == [] then []
    else FanOut(src, regs[0], subnets) + RegistrationPosts(src, regs[1..], subnets)
  }

  function TransferPosts(ts: seq<ErcTransfer>): seq<Post> {
    if ts == [] then []
    else if ts[0].amount == 0 then TransferPosts(ts[1..])
    else [Post(ts[0].destination, ErcTransferred(ts[0]))] + TransferPosts(ts[1..])
  }

  function BatchPosts(b: Batch, subnets: seq<SubnetId>): seq<Post> {
    NativePosts(b.native) + RegistrationPosts(b.source, b.registrations, subnets) + TransferPosts(b.transfers)
  }

  // ---------------------------------------------------------------------
  // The database and one accepted or rejected message.

  /** Of a checkpoint row, its number and the batch that was recorded on it. */
  datatype CheckpointRow = CheckpointRow(number: nat, batch: Option<Origin>)

  /** Of a subnet, what batches and fund messages look at. */
  datatype SubnetSummary = SubnetSummary(lastCheckpoint: Option<nat>, killedOrPending: bool, checkpoints: map<nat, CheckpointRow>)

  predicate HasCheckpoint(s: SubnetSummary) {
    s.lastCheckpoint.Some? && s.lastCheckpoint.value in s.checkpoints
  }

  /** The last record, with the batch on it, goes into the slot after the last. */
  function WithBatch(s: SubnetSummary, origin: Origin): SubnetSummary
    requires HasCheckpoint(s)
  {
    var last := s.lastCheckpoint.value;
    s.(checkpoints := s.checkpoints[last + 1 := s.checkpoints[last].(batch := Some(origin))])
  }

  datatype Db = Db(subnets: map<SubnetId, SubnetSummary>, balances: Balances, inboxes: Inboxes)

  /** `IpcBatchTransferMsg::save_to_db`: an error leaves the database as it was. */
  function SaveBatch(db: Db, b: Batch, origin: Origin, subnets: seq<SubnetId>): Result<Db, BatchError> {
    if b.source !in db.subnets then Err(UnknownSource)
    else if !HasCheckpoint(db.subnets[b.source]) then Err(NoCheckpoint)
    else
      var checked := DryRun(b, db.balances);
      if checked.Err? then Err(checked.error)
      else
        var applied := ApplyBalances(b, db.balances);
        if applied.Err? then Err(applied.error)
        else Ok(db.(subnets := db.subnets[b.source := WithBatch(db.subnets[b.source], origin)],
                    balances := applied.value,
                    inboxes := DeliverAll(db.inboxes, BatchPosts(b, subnets), origin)))
  }

  /** `IpcFundSubnetMsg::save_to_db`; refused for a subnet that is killed or marked. */
  function SaveFund(db: Db, d: SubnetId, amount: nat, recipient: Address, origin: Origin): Option<Db> {
    if d !in db.subnets || db.subnets[d].killedOrPending then None
    else Some(db.(inboxes := Deliver(db.inboxes, Post(d, Fund(amount, recipient)), origin)))
  }
}
