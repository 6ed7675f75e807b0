/**
 The result and error model of message execution and the immutable execution
 context of a machine: reserved actor addresses, call errors, application
 results (and the result of a message rejected before execution), the kind of
 an applied message, and the machine context with its read-only accessors.
 */
module Machine {
  import opened Shared

  /** The reward actor, destination of block rewards, is ID address 2. */
  const RewardActorAddr: Address := IdAddress(2)

  /** The account actor that receives every burnt fund is ID address 99. */
  const BurntFundsActorAddr: Address := IdAddress(99)

  /** The constants above are the property; what this adds is that the two
      reserved addresses, ID addresses 2 and 99, are distinct. */
  lemma ReservedAddresses()
    ensures RewardActorAddr.id == 2 && BurntFundsActorAddr.id == 99
    ensures RewardActorAddr != BurntFundsActorAddr
  {
  }

  /** The error raised by a syscall: a human-readable message and an exit code. */
  datatype SyscallError = SyscallError(message: string, code: ExitCode)

  /** One entry of a failed message's backtrace. A `source` of 0 marks an error
      raised by a syscall rather than by an actor. */
  datatype CallError = CallError(source: ActorId, code: ExitCode, message: string)
  {
    /** The error was raised at syscall level, not by an actor. */
    predicate IsSyscallError()
    {
      source == 0
    }
  }

  /** Whether a message is user-signed and validated by the chain, or issued by
      the protocol itself. */
  datatype ApplyKind = Explicit | Implicit

  /** What applying a message returns: the on-chain receipt, the backtrace of
      the failure if any, the gas penalty and the miner's tip. */
  datatype ApplyRet = ApplyRet(
    msgReceipt: Receipt,
    backtrace: seq<CallError>,
    penalty: int,
    minerTip: int)
  {
    /** The result of a message rejected before execution, built from the
        rejecting syscall error and the penalty charged to the miner. */
    static function PrevalidationFail(error: SyscallError, minerPenalty: int): (r: ApplyRet)
      ensures r.msgReceipt.gasUsed == 0 && r.msgReceipt.returnData == []
      ensures r.msgReceipt.exitCode == error.code
      ensures |r.backtrace| == 1
      ensures r.backtrace[0].IsSyscallError()
      ensures r.backtrace[0].code == error.code && r.backtrace[0].message == error.message
      ensures r.penalty == minerPenalty && r.minerTip == 0
      ensures r.IsPrevalidationFailure()
    {
      ApplyRet(
        Receipt(error.code, [], 0),
        [CallError(0, error.code, error.message)],
        minerPenalty,
        0)
    }

    /** The shape of a result produced by a rejection before execution: no gas,
        no return data, no tip, and a single syscall-level backtrace entry that
        carries the receipt's exit code. */
    predicate IsPrevalidationFailure()
    {
      && msgReceipt.gasUsed == 0
      && msgReceipt.returnData == []
      && minerTip == 0
      && |backtrace| == 1
      && backtrace[0].IsSyscallError()
      && backtrace[0].code == msgReceipt.exitCode
    }

    /** The syscall error a prevalidation failure reports. */
    function RejectionOf(): (e: SyscallError)
      requires IsPrevalidationFailure()
      ensures PrevalidationFail(e, penalty) == this
    {
      var e := SyscallError(backtrace[0].message, msgReceipt.exitCode);
      assert PrevalidationFail(e, penalty).backtrace == backtrace;
      e
    }
  }

  /** A result has the prevalidation-failure shape exactly when some syscall
      error and penalty produce it. */
  lemma PrevalidationFailImage(r: ApplyRet)
    ensures r.IsPrevalidationFailure() <==>
              exists e: SyscallError, p: int :: ApplyRet.PrevalidationFail(e, p) == r
  {
    if r.IsPrevalidationFailure() {
      var e := r.RejectionOf();
      assert ApplyRet.PrevalidationFail(e, r.penalty) == r;
    }
  }

  /** Equal rejections give equal results, and distinct rejections give distinct
      results: the error and the penalty are recoverable from the result. */
  lemma PrevalidationFailInjective(e1: SyscallError, p1: int, e2: SyscallError, p2: int)
    ensures (ApplyRet.PrevalidationFail(e1, p1) == ApplyRet.PrevalidationFail(e2, p2))
        <==> (e1 == e2 && p1 == p2)
  {
  }

  /** The context a machine executes in, fixed when the machine is built: the
      epoch, the base fee, the initial state root, the price list and the network
      version. None of its own operations changes it; the price list is carried
      unexamined. */
  datatype MachineContext<P> = MachineContext(
    epoch: ChainEpoch,
    baseFee: TokenAmount,
    initialStateRoot: Cid,
    priceList: P,
    networkVersion: NetworkVersion)
  {
    /** Builds a context; each accessor then gives back the argument supplied
        for it, and the state root is the initial one. */
    static function New(
      epoch: ChainEpoch,
      baseFee: TokenAmount,
      stateRoot: Cid,
      priceList: P,
      networkVersion: NetworkVersion): (c: MachineContext<P>)
      ensures c.Epoch() == epoch
      ensures c.BaseFee() == baseFee
      ensures c.StateRoot() == stateRoot
      ensures c.PriceList() == priceList
      ensures c.NetworkVersion() == networkVersion
    {
      MachineContext(epoch, baseFee, stateRoot, priceList, networkVersion)
    }

    function Epoch(): ChainEpoch { epoch }

    function BaseFee(): TokenAmount { baseFee }

    /** The state root the machine started from. */
    function StateRoot(): Cid { initialStateRoot }

    function NetworkVersion(): NetworkVersion { networkVersion }

    function PriceList(): P { priceList }
  }

  /** Every context is the one `New` builds from what its accessors return, and
      no other arguments build it. */
  lemma ContextBuiltByNew<P>(c: MachineContext<P>)
    ensures exists e: ChainEpoch, f: TokenAmount, s: Cid, p: P, v: NetworkVersion ::
              MachineContext.New(e, f, s, p, v) == c
    ensures forall e: ChainEpoch, f: TokenAmount, s: Cid, p: P, v: NetworkVersion ::
              MachineContext.New(e, f, s, p, v) == c ==>
                e == c.Epoch() && f == c.BaseFee() && s == c.StateRoot()
                && p == c.PriceList() && v == c.NetworkVersion()
  {
    assert MachineContext.New(c.Epoch(), c.BaseFee(), c.StateRoot(), c.PriceList(), c.NetworkVersion()) == c;
  }

  /** Two contexts are equal exactly when every accessor agrees on them. */
  lemma ContextEquality<P>(c1: MachineContext<P>, c2: MachineContext<P>)
    ensures c1 == c2 <==>
              && c1.Epoch() == c2.Epoch() && c1.BaseFee() == c2.BaseFee()
              && c1.StateRoot() == c2.StateRoot() && c1.PriceList() == c2.PriceList()
              && c1.NetworkVersion() == c2.NetworkVersion()
  {
  }
}
